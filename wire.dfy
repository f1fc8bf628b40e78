/** The primitive layer of DataOutputStream and DataInputStream: bytes,
  * big-endian fixed-width integers, and the outcome of a read. */
module Wire {
  import opened JavaTypes

  /** One byte on the wire, as an unsigned value. */
  type Byte = x: int | 0 <= x < 0x100

  /** A successful read: the value and the input that follows it. */
  datatype Parsed<+T> = Parsed(value: T, rest: seq<Byte>)

  function Pow256(n: nat): (r: nat)
    ensures r >= 1
  {
    if n == 0 then 1 else 0x100 * Pow256(n - 1)
  }

  /** The low n bytes of v's two's complement, most significant first:
    * what writeShort (n = 2), writeInt (4) and writeLong (8) emit. */
  function BigEndian(v: int, n: nat): (r: seq<Byte>)
    ensures |r| == n
    decreases n
  {
    if n == 0 then [] else BigEndian(v / 0x100, n - 1) + [v % 0x100]
  }

  /** The unsigned big-endian value of a run of bytes. */
  function Unsigned(bs: seq<Byte>): (r: nat)
    ensures r < Pow256(|bs|)
  {
    if bs == [] then 0 else Unsigned(bs[..|bs| - 1]) * 0x100 + bs[|bs| - 1]
  }

  /** Reading back n written bytes gives v modulo 256^n: the write keeps
    * exactly the low n bytes. */
  lemma {:induction false} UnsignedBigEndian(v: int, n: nat)
    ensures Unsigned(BigEndian(v, n)) == v % Pow256(n)
    decreases n
  {
    if n > 0 {
      var bs := BigEndian(v, n);
      assert bs[..n - 1] == BigEndian(v / 0x100, n - 1);
      UnsignedBigEndian(v / 0x100, n - 1);
      var q := v / 0x100;
      var p := Pow256(n - 1);
      calc {
        Unsigned(bs);
        (q % p) * 0x100 + v % 0x100;
        { DivModNested(v, 0x100, p); }
        v % (0x100 * p);
      }
    }
  }

  /** (v / a) % b * a + v % a == v % (a * b), for positive a and b. */
  lemma {:induction false} DivModNested(v: int, a: int, b: int)
    requires a > 0 && b > 0
    ensures (v / a) % b * a + v % a == v % (a * b)
  {
    var q, r := v / a, v % a;
    var q1, r1 := q / b, q % b;
    assert v == a * q + r;
    assert q == b * q1 + r1;
    RegroupProduct(a, b, q1, r1, r);
    assert 0 <= r1 * a + r < a * b by {
      MulMono(a, r1, b - 1);
      assert a * (b - 1) == a * b - a;
    }
    ModUnique(v, a * b, q1, r1 * a + r);
  }

  lemma {:induction false} RegroupProduct(a: int, b: int, q1: int, r1: int, r: int)
    ensures a * (b * q1 + r1) + r == (a * b) * q1 + (r1 * a + r)
  {
  }

  lemma {:induction false} MulMono(a: int, x: int, y: int)
    requires a > 0 && x <= y
    ensures a * x <= a * y
  {
  }

  lemma {:induction false} ModUnique(v: int, m: int, q: int, r: int)
    requires m > 0 && 0 <= r < m && v == m * q + r
    ensures v % m == r
  {
    var q', r' := v / m, v % m;
    assert v == m * q' + r';
    assert m * (q - q') == r' - r by {
      assert m * (q - q') == m * q - m * q';
    }
    if q > q' {
      MulAtLeast(m, q - q');
    } else if q < q' {
      MulAtLeast(m, q' - q);
    }
  }

  lemma {:induction false} MulAtLeast(m: int, d: int)
    requires m > 0 && d >= 1
    ensures m * d >= m
  {
    assert m * d == m * (d - 1) + m;
    assert m * (d - 1) >= 0;
  }

  lemma {:induction false} Pow256Values()
    ensures Pow256(1) == 0x100 && Pow256(2) == 0x1_0000
    ensures Pow256(4) == 0x1_0000_0000 && Pow256(8) == 0x1_0000_0000_0000_0000
  {
    assert Pow256(2) == 0x1_0000;
    assert Pow256(4) == 0x1_0000_0000 by { assert Pow256(3) == 0x100_0000; }
    assert Pow256(6) == 0x1_0000_0000_0000 by { assert Pow256(5) == 0x100_0000_0000; }
    assert Pow256(8) == 0x1_0000_0000_0000_0000 by { assert Pow256(7) == 0x100_0000_0000_0000; }
  }

  // ---------------------------------------------------------------------
  // Writers (DataOutputStream).

  function WriteByte(v: int): seq<Byte> { BigEndian(v, 1) }
  function WriteShort(v: int): seq<Byte> { BigEndian(v, 2) }
  function WriteInt(v: int): seq<Byte> { BigEndian(v, 4) }
  function WriteLong(v: int): seq<Byte> { BigEndian(v, 8) }
  function WriteBoolean(b: bool): seq<Byte> { [if b then 1 else 0] }

  // ---------------------------------------------------------------------
  // Readers (DataInputStream). A read past the end is an EOFException.

  function ReadUnsigned(s: seq<Byte>, n: nat): (r: Result<Parsed<nat>>)
    ensures r.Ok? <==> |s| >= n
    ensures r.Ok? ==> r.value.rest == s[n..] && r.value.value < Pow256(n)
    ensures r.Thrown? ==> r.ex == IO(EndOfFile)
  {
    if |s| < n then Thrown(IO(EndOfFile)) else Ok(Parsed(Unsigned(s[..n]), s[n..]))
  }

  function ReadByte(s: seq<Byte>): (r: Result<Parsed<Int8>>)
    ensures r.Ok? <==> |s| >= 1
    ensures r.Ok? ==> r.value.rest == s[1..]
  {
    if |s| < 1 then Thrown(IO(EndOfFile)) else Ok(Parsed(ToInt8(s[0]), s[1..]))
  }

  function ReadShort(s: seq<Byte>): (r: Result<Parsed<Int16>>)
    ensures r.Ok? <==> |s| >= 2
    ensures r.Ok? ==> r.value.rest == s[2..]
  {
    if |s| < 2 then Thrown(IO(EndOfFile)) else Ok(Parsed(ToInt16(Unsigned(s[..2])), s[2..]))
  }

  function ReadInt(s: seq<Byte>): (r: Result<Parsed<Int32>>)
    ensures r.Ok? <==> |s| >= 4
    ensures r.Ok? ==> r.value.rest == s[4..]
  {
    if |s| < 4 then Thrown(IO(EndOfFile)) else Ok(Parsed(ToInt32(Unsigned(s[..4])), s[4..]))
  }

  function ReadLong(s: seq<Byte>): (r: Result<Parsed<Int64>>)
    ensures r.Ok? <==> |s| >= 8
    ensures r.Ok? ==> r.value.rest == s[8..]
  {
    if |s| < 8 then Thrown(IO(EndOfFile)) else Ok(Parsed(ToInt64(Unsigned(s[..8])), s[8..]))
  }

  function ReadBoolean(s: seq<Byte>): (r: Result<Parsed<bool>>)
    ensures r.Ok? <==> |s| >= 1
    ensures r.Ok? ==> r.value.rest == s[1..]
  {
    if |s| < 1 then Thrown(IO(EndOfFile)) else Ok(Parsed(s[0] != 0, s[1..]))
  }

  // ---------------------------------------------------------------------
  // Each reader inverts its writer, whatever follows on the stream.

  lemma SmallMod(v: int, m: int)
    requires 0 <= v < m
    ensures v % m == v
  {
  }

  lemma {:induction false} ReadUnsignedBigEndian(v: nat, n: nat, rest: seq<Byte>)
    requires v < Pow256(n)
    ensures ReadUnsigned(BigEndian(v, n) + rest, n) == Ok(Parsed(v, rest))
  {
    var s := BigEndian(v, n) + rest;
    assert s[..n] == BigEndian(v, n);
    assert s[n..] == rest;
    assert Unsigned(s[..n]) == v by {
      UnsignedBigEndian(v, n);
      SmallMod(v, Pow256(n));
    }
  }

  lemma {:induction false} ReadWriteByte(v: Int8, rest: seq<Byte>)
    ensures ReadByte(WriteByte(v) + rest) == Ok(Parsed(v, rest))
  {
    UnsignedBigEndian(v, 1);
    Pow256Values();
    assert (WriteByte(v) + rest)[1..] == rest;
  }

  lemma {:induction false} ReadWriteShort(v: Int16, rest: seq<Byte>)
    ensures ReadShort(WriteShort(v) + rest) == Ok(Parsed(v, rest))
  {
    var s := WriteShort(v) + rest;
    assert s[..2] == WriteShort(v);
    assert s[2..] == rest;
    var u := Unsigned(s[..2]);
    assert u == v % 0x1_0000 by {
      UnsignedBigEndian(v, 2);
      Pow256Values();
    }
    assert ToInt16(u) == v;
  }

  lemma {:induction false} ReadWriteInt(v: Int32, rest: seq<Byte>)
    ensures ReadInt(WriteInt(v) + rest) == Ok(Parsed(v, rest))
  {
    var s := WriteInt(v) + rest;
    assert s[..4] == WriteInt(v);
    assert s[4..] == rest;
    var u := Unsigned(s[..4]);
    assert u == v % 0x1_0000_0000 by {
      UnsignedBigEndian(v, 4);
      Pow256Values();
    }
    assert ToInt32(u) == v;
  }

  lemma {:induction false} ReadWriteLong(v: Int64, rest: seq<Byte>)
    ensures ReadLong(WriteLong(v) + rest) == Ok(Parsed(v, rest))
  {
    UnsignedBigEndian(v, 8);
    Pow256Values();
    var s := WriteLong(v) + rest;
    assert s[..8] == WriteLong(v);
    assert s[8..] == rest;
    var u := Unsigned(s[..8]);
    assert u == v % 0x1_0000_0000_0000_0000;
    assert ToInt64(u) == v by {
      if v < 0 {
        assert u == v + 0x1_0000_0000_0000_0000;
      } else {
        assert u == v;
      }
    }
  }

  lemma {:induction false} ReadWriteBoolean(b: bool, rest: seq<Byte>)
    ensures ReadBoolean(WriteBoolean(b) + rest) == Ok(Parsed(b, rest))
  {
    assert (WriteBoolean(b) + rest)[1..] == rest;
  }

  // ---------------------------------------------------------------------
  // Runs of fixed-width values: the element loops of the array payloads.

  /** Every value of vs written in width bytes, in order. */
  function Words(vs: seq<int>, width: nat): (r: seq<Byte>)
    ensures |r| == |vs| * width
  {
    if vs == [] then [] else BigEndian(vs[0], width) + Words(vs[1..], width)
  }

  /** n unsigned values of width bytes each, read in order. */
  function ReadWords(s: seq<Byte>, n: nat, width: nat): (r: Result<Parsed<seq<nat>>>)
    ensures r.Ok? <==> |s| >= n * width
    ensures r.Ok? ==> |r.value.value| == n && r.value.rest == s[n * width..]
    ensures r.Ok? ==> forall i :: 0 <= i < n ==> r.value.value[i] < Pow256(width)
    ensures r.Thrown? ==> r.ex == IO(EndOfFile)
    decreases n
  {
    if n == 0 then Ok(Parsed([], s))
    else if |s| < width then Thrown(IO(EndOfFile))
    else
      var tail := ReadWords(s[width..], n - 1, width);
      if tail.Thrown? then tail
      else Ok(Parsed([Unsigned(s[..width])] + tail.value.value, tail.value.rest))
  }

  /** Each value reduced modulo 256^width: what survives a write of that width. */
  function Residues(vs: seq<int>, width: nat): (r: seq<nat>)
    ensures |r| == |vs| && forall i :: 0 <= i < |vs| ==> r[i] == vs[i] % Pow256(width)
  {
    if vs == [] then [] else [vs[0] % Pow256(width)] + Residues(vs[1..], width)
  }

  /** Reading back a run gives every value modulo 256^width. */
  lemma {:induction false} ReadWordsWords(vs: seq<int>, width: nat, rest: seq<Byte>)
    ensures ReadWords(Words(vs, width) + rest, |vs|, width) == Ok(Parsed(Residues(vs, width), rest))
  {
    if vs != [] {
      var s := Words(vs, width) + rest;
      assert s[..width] == BigEndian(vs[0], width);
      assert s[width..] == Words(vs[1..], width) + rest;
      UnsignedBigEndian(vs[0], width);
      ReadWordsWords(vs[1..], width, rest);
    } else {
      assert Words(vs, width) + rest == rest;
    }
  }
}
