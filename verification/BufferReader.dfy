/** Reading numbers, most significant byte first, from a buffer that may end too early. */
module BufferReader {
  import opened Prelude

  /** A value and where reading goes on, or too few bytes. */
  datatype Got<+T> = Got(value: T, next: nat) | Short

  function BytesAt(b: seq<byte>, pos: nat, count: nat): (r: Got<seq<byte>>)
    ensures r.Got? <==> pos + count <= |b|
    ensures r.Got? ==> r.next == pos + count && |r.value| == count
  {
    if |b| < pos + count then Short else Got(b[pos..pos + count], pos + count)
  }

  function Unsigned(b: seq<byte>): (n: nat) {
    if b == [] then 0 else 256 * Unsigned(b[..|b| - 1]) + b[|b| - 1]
  }

  /** Two's complement at the width of the bytes. */
  function Signed(b: seq<byte>): int
    requires b != []
  {
    if b[0] < 128 then Unsigned(b) else Unsigned(b) - Power256(|b|)
  }

  function UnsignedAt(b: seq<byte>, pos: nat, count: nat): Got<int> {
    var g := BytesAt(b, pos, count);
    if g.Short? then Short else Got(Unsigned(g.value), g.next)
  }

  function SignedAt(b: seq<byte>, pos: nat, count: nat): Got<int>
    requires 0 < count
  {
    var g := BytesAt(b, pos, count);
    if g.Short? then Short else Got(Signed(g.value), g.next)
  }

  // ----- writing

  /** The low bytes of a number, negative ones in two's complement, most significant byte first. */
  function BigEndian(v: int, count: nat): (b: seq<byte>)
    ensures |b| == count
    decreases count
  {
    if count == 0 then [] else BigEndian(v / 256, count - 1) + [v % 256]
  }

  lemma {:induction false} UnsignedReadBack(v: int, count: nat)
    ensures Unsigned(BigEndian(v, count)) == v % Power256(count)
    decreases count
  {
    if count != 0 {
      UnsignedReadBack(v / 256, count - 1);
      var b := BigEndian(v, count);
      assert b[..|b| - 1] == BigEndian(v / 256, count - 1);
      ModSplit(v, Power256(count - 1));
    }
  }

  lemma ModSplit(v: int, p: int)
    requires 0 < p
    ensures v % (256 * p) == 256 * (v / 256 % p) + v % 256
  {
    var q, r := v / 256 / p, v / 256 % p;
    assert v == 256 * (q * p + r) + v % 256;
    var low := 256 * r + v % 256;
    assert v == q * (256 * p) + low by {
      assert 256 * (q * p) == q * (256 * p);
    }
    assert 0 <= low < 256 * p;
    DivModUnique(v, 256 * p, q, low);
  }

  /** Numbers that fit are read back as written. */
  lemma SignedReadBack(v: int, count: nat)
    requires 0 < count && -Power256(count) <= 2 * v < Power256(count)
    ensures Signed(BigEndian(v, count)) == v
  {
    var b, p := BigEndian(v, count), Power256(count);
    UnsignedReadBack(v, count);
    FirstByteSplits(b);
    assert v % p == if v < 0 then v + p else v by {
      if v < 0 {
        DivModUnique(v, p, -1, v + p);
      } else {
        DivModUnique(v, p, 0, v);
      }
    }
  }

  /** The first byte tells the upper half of the range from the lower. */
  lemma {:induction false} FirstByteSplits(b: seq<byte>)
    requires b != []
    ensures b[0] * Power256(|b| - 1) <= Unsigned(b) < (b[0] + 1) * Power256(|b| - 1)
    ensures b[0] < 128 <==> 2 * Unsigned(b) < Power256(|b|)
  {
    if |b| == 1 {
      assert b[..0] == [] && Unsigned(b) == b[0] && Power256(0) == 1;
    } else {
      var front := b[..|b| - 1];
      FirstByteSplits(front);
      assert front[0] == b[0];
      ScaleUp(b[0], Power256(|b| - 2), Unsigned(front), b[|b| - 1]);
      assert Power256(|b| - 1) == 256 * Power256(|b| - 2);
    }
    assert Power256(|b|) == 256 * Power256(|b| - 1);
    HalfPower(b[0], Power256(|b| - 1), Unsigned(b));
  }

  lemma ScaleUp(first: int, p: int, u: int, low: byte)
    requires first * p <= u < (first + 1) * p
    ensures first * (256 * p) <= 256 * u + low < (first + 1) * (256 * p)
  {
    assert first * (256 * p) == 256 * (first * p);
    assert (first + 1) * (256 * p) == 256 * ((first + 1) * p);
  }

  lemma HalfPower(first: byte, p: int, u: int)
    requires 0 < p && first * p <= u < (first + 1) * p
    ensures first < 128 <==> 2 * u < 256 * p
  {
    if first < 128 {
      assert (first + 1) * p <= 128 * p;
    } else {
      assert 128 * p <= first * p;
    }
  }

  /** The bytes of a number, the most significant first. */
  lemma BigEndianSpelled(v: int)
    ensures BigEndian(v, 1) == [v % 256]
    ensures BigEndian(v, 2) == [v / 256 % 256, v % 256]
    ensures BigEndian(v, 3) == [v / 0x1_0000 % 256, v / 0x100 % 256, v % 256]
    ensures BigEndian(v, 4) == [v / 0x100_0000 % 256, v / 0x1_0000 % 256, v / 0x100 % 256, v % 256]
  {
    var a, b, c := v / 256, v / 0x1_0000, v / 0x100_0000;
    assert a / 256 == b && b / 256 == c;
    assert BigEndian(c / 256, 0) == [] && [] + [c % 256] == [c % 256];
    assert [] + [v % 256] == [v % 256] && [] + [a % 256] == [a % 256] && [] + [b % 256] == [b % 256];
    assert BigEndian(c, 1) == [c % 256] && BigEndian(b, 1) == [b % 256] && BigEndian(a, 1) == [a % 256];
    assert BigEndian(b, 2) == [c % 256] + [b % 256] && BigEndian(a, 2) == [b % 256] + [a % 256];
    assert BigEndian(a, 3) == BigEndian(b, 2) + [a % 256];
  }

  lemma UnsignedIs(v: int, count: nat)
    requires 0 <= v < Power256(count)
    ensures Unsigned(BigEndian(v, count)) == v
  {
    UnsignedReadBack(v, count);
    DivModUnique(v, Power256(count), 0, v);
  }

  // ----- the reader

  class Reader {
    const buffer: seq<byte>
    var pointer: nat
    var lastPointer: nat

    ghost predicate Valid()
      reads this
    {
      pointer <= |buffer|
    }

    constructor (data: seq<byte>)
      ensures Valid() && buffer == data && pointer == 0
    {
      buffer := data;
      pointer, lastPointer := 0, 0;
    }

    function Remaining(): (n: nat)
      requires Valid()
      reads this
    {
      |buffer| - pointer
    }

    /** Too few bytes leave the pointer where it is. */
    method ReadBytes(count: nat) returns (r: Got<seq<byte>>)
      requires Valid()
      modifies this
      ensures Valid() && r == BytesAt(buffer, old(pointer), count)
      ensures pointer == (if r.Got? then r.next else old(pointer)) && lastPointer == old(pointer)
    {
      lastPointer := pointer;
      if |buffer| < pointer + count {
        return Short;
      }
      r := Got(buffer[pointer..pointer + count], pointer + count);
      pointer := pointer + count;
    }

    method ReadUnsigned(count: nat) returns (r: Got<int>)
      requires Valid()
      modifies this
      ensures Valid() && r == UnsignedAt(buffer, old(pointer), count)
      ensures pointer == if r.Got? then r.next else old(pointer)
    {
      var g := ReadBytes(count);
      r := if g.Short? then Short else Got(Unsigned(g.value), g.next);
    }

    method ReadSigned(count: nat) returns (r: Got<int>)
      requires Valid() && 0 < count
      modifies this
      ensures Valid() && r == SignedAt(buffer, old(pointer), count)
      ensures pointer == if r.Got? then r.next else old(pointer)
    {
      var g := ReadBytes(count);
      r := if g.Short? then Short else Got(Signed(g.value), g.next);
    }

    method ReadByte() returns (v: byte)
      requires Valid() && pointer < |buffer|
      modifies this
      ensures Valid() && v == buffer[old(pointer)] && pointer == old(pointer) + 1
    {
      var g := ReadBytes(1);
      v := g.value[0];
    }

    /** Byte by byte: when the bytes run out, those read are gone. */
    method ReadInt24() returns (r: Got<int>)
      requires Valid()
      modifies this
      ensures Valid() && r == SignedAt(buffer, old(pointer), 3) && (r.Got? ==> pointer == r.next)
    {
      ghost var pos := pointer;
      var hi := ReadBytes(1);
      if hi.Short? { return Short; }
      var mid := ReadBytes(1);
      if mid.Short? { return Short; }
      var lo := ReadBytes(1);
      if lo.Short? { return Short; }
      var value := 0x1_0000 * (hi.value[0] as int) + 0x100 * (mid.value[0] as int) + lo.value[0] as int;
      ThreeBytes(buffer[pos..pos + 3]);
      if 0x80_0000 <= value {
        value := value - 0x100_0000;
      }
      r := Got(value, pointer);
    }
  }

  lemma ThreeBytes(b: seq<byte>)
    requires |b| == 3
    ensures Unsigned(b) == 0x1_0000 * (b[0] as int) + 0x100 * (b[1] as int) + b[2] as int && Power256(3) == 0x100_0000
  {
    assert b[..2][..1] == b[..1] && b[..1][..0] == [];
    assert Unsigned(b[..1]) == b[0];
    assert Unsigned(b[..2]) == 0x100 * (b[0] as int) + b[1] as int;
  }
}
