/**
 * The rANS state machine of the reference port: pushing one (start, range)
 * entry into the state while shedding low bytes, and popping it again while
 * taking bytes back.
 */
module RansState {
  import opened Prelude

  /** RANS_L: between two entries the state is never below it. */
  const LOW: int := 0x80_0000
  /** 2^31: between two entries the state is always below it. */
  const TOP: int := 0x8000_0000
  /** 1 << PRECISION */
  const SCALE: int := 0x1_0000
  /** 1 << BYPASS_PRECISION */
  const RADIX: int := 4

  /** A coder entry; range 0 marks two raw bits, held in start. */
  datatype Code = Code(start: int, range: int)

  predicate ValidCode(c: Code) {
    if c.range == 0 then 0 <= c.start < RADIX
    else 0 < c.range && 0 <= c.start && c.start + c.range <= SCALE
  }

  type Entry = c: Code | ValidCode(c) witness Code(0, 0)

  /** A place in a sub-stream: the state, and the bytes not read yet. */
  datatype Cursor = Cursor(x: int, rest: seq<byte>)

  /** A number read and the place after it, or the end of the bytes met while reading. */
  datatype Reading = Starved | Got(v: int, next: Cursor)

  predicate Settled(c: Cursor) {
    LOW <= c.x < TOP
  }

  // ----- pushing

  function Ceiling(e: Entry): (m: int)
    ensures 0x8000 <= m <= TOP
  {
    if e.range != 0 then e.range * 0x8000 else 0x4000 * 0x8000
  }

  /** Sheds low bytes until x is below the ceiling; the byte shed last is read first. */
  function Shed(x: int, ceiling: int): (r: (int, seq<byte>))
    requires 0 <= x && 0 < ceiling
    ensures 0 <= r.0 < ceiling
  {
    if x < ceiling then (x, [])
    else
      var (y, bytes) := Shed(x / 256, ceiling);
      (y, bytes + [x % 256])
  }

  function Absorb(e: Entry, y: int): int {
    if e.range != 0 then (y / e.range) * SCALE + y % e.range + e.start
    else y * RADIX + e.start
  }

  /** Every push of a valid entry keeps the state in [2^23, 2^31). */
  function Push(e: Entry, c: Cursor): (r: Cursor)
    requires Settled(c)
    ensures Settled(r)
  {
    AbsorbSettles(e, c.x);
    var (y, bytes) := Shed(c.x, Ceiling(e));
    Cursor(Absorb(e, y), bytes + c.rest)
  }

  /** Pushes a whole list on top of c: the last entry goes in first. */
  function PushAll(entries: seq<Entry>, c: Cursor): (r: Cursor)
    requires Settled(c)
    ensures Settled(r)
  {
    if entries == [] then c
    else Push(entries[0], PushAll(entries[1..], c))
  }

  /** What the encoder leaves for a list of entries. */
  function Encoded(entries: seq<Entry>): (c: Cursor)
    ensures Settled(c)
  {
    PushAll(entries, Cursor(LOW, []))
  }

  lemma {:induction false} PushAllAppend(a: seq<Entry>, b: seq<Entry>, c: Cursor)
    requires Settled(c)
    ensures PushAll(a + b, c) == PushAll(a, PushAll(b, c))
  {
    if a == [] {
      assert a + b == b;
    } else {
      assert (a + b)[1..] == a[1..] + b;
      PushAllAppend(a[1..], b, c);
    }
  }

  /** The sub-stream: the final state low byte first, then the bytes shed, last shed first. */
  function Flushed(entries: seq<Entry>): seq<byte> {
    var c := Encoded(entries);
    Le32(c.x) + c.rest
  }

  // ----- popping

  /** Takes bytes back until the state is at least LOW; None when the bytes run out. */
  function Refill(x: int, rest: seq<byte>): (r: Option<Cursor>)
    requires 0 <= x
    ensures r.Some? ==> LOW <= r.value.x && |r.value.rest| <= |rest|
    decreases |rest|
  {
    if LOW <= x then Some(Cursor(x, rest))
    else if rest == [] then None
    else Refill((x * 256 + rest[0]) % 0x1_0000_0000, rest[1..])
  }

  /** Removes a range entry once the symbol it stands for is known. */
  function PopRange(c: Cursor, start: int, range: int): (r: Option<Cursor>)
    requires 0 <= c.x && start <= c.x % SCALE && 0 < range
    ensures r.Some? ==> LOW <= r.value.x && |r.value.rest| <= |c.rest|
  {
    MulNonNegative(range, c.x / SCALE);
    Refill(range * (c.x / SCALE) + c.x % SCALE - start, c.rest)
  }

  /** get_bits(2): at most one byte is taken back. */
  function GetBits(c: Cursor): (r: Reading)
    requires 0 <= c.x
    ensures r.Got? ==> 0 <= r.v < RADIX && 0 <= r.next.x
    ensures r.Got? ==> |r.next.rest| < |c.rest| || (r.next.rest == c.rest && r.next.x < c.x)
  {
    var v, y := c.x % RADIX, c.x / RADIX;
    if LOW <= y then Got(v, Cursor(y, c.rest))
    else if c.rest == [] then Starved
    else Got(v, Cursor((y * 256 + c.rest[0]) % 0x1_0000_0000, c.rest[1..]))
  }

  // ----- the interval the state stays in

  /** After shedding, the state is at least ceiling / 256. */
  lemma {:induction false} ShedFloor(x: int, ceiling: int, floor: int)
    requires floor <= x && 0 < floor && ceiling == 256 * floor
    ensures floor <= Shed(x, ceiling).0
    decreases x
  {
    if ceiling <= x {
      ShedFloor(x / 256, ceiling, floor);
    }
  }

  lemma MulCancelLess(r: int, a: int, b: int)
    requires 0 < r && r * a < r * b
    ensures a < b
  {
    if b <= a {
      MulNonNegative(r, a - b);
    }
  }

  lemma DivBounds(y: int, r: int, lo: int, hi: int)
    requires 0 < r && r * lo <= y < r * hi
    ensures lo <= y / r < hi && 0 <= y % r < r && y == r * (y / r) + y % r
  {
    var q := y / r;
    assert y == r * q + y % r;
    MulCancelLess(r, lo, q + 1);
    MulCancelLess(r, q, hi);
  }

  lemma AbsorbSettles(e: Entry, x: int)
    requires 0x80_0000 <= x < 0x8000_0000
    ensures 0x80_0000 <= Absorb(e, Shed(x, Ceiling(e)).0) < 0x8000_0000
  {
    var y := Shed(x, Ceiling(e)).0;
    if e.range != 0 {
      ShedFloor(x, Ceiling(e), e.range * 128);
      DivBounds(y, e.range, 128, 0x8000);
    } else {
      ShedFloor(x, Ceiling(e), 0x20_0000);
    }
  }

  // ----- pushing, number by number

  /** Shedding takes off low bytes, none, one or two; the lowest is read last. */
  lemma ShedSpelled(x: int, ceiling: int)
    requires 0 <= x < 0x8000_0000 && 0x8000 <= ceiling
    ensures
      var (y, bytes) := Shed(x, ceiling);
      || (bytes == [] && y == x)
      || (bytes == [x % 256] && y == x / 256)
      || (bytes == [x / 256 % 256, x % 256] && y == x / 65536)
  {
    var y1, y2 := x / 256, x / 65536;
    assert y1 / 256 == y2 && y2 < 0x8000;
    assert Shed(y2, ceiling) == (y2, []);
    assert [] + [y1 % 256] == [y1 % 256] && [y1 % 256] + [x % 256] == [y1 % 256, x % 256] && [] + [x % 256] == [x % 256];
  }

  /** The state without its low bytes is in the interval of the entry; this fixes how many bytes are shed. */
  predicate Ready(e: Entry, y: int) {
    if e.range != 0 then e.range * 128 <= y < e.range * 32768 else 0x20_0000 <= y < 0x2000_0000
  }

  /** Quotient and remainder of the new state: those of the old one at the entry's range, or two more bits below it. */
  predicate Absorbed(e: Entry, y: int, x: int) {
    if e.range != 0 then x / 65536 == y / e.range && x % 65536 == e.start + y % e.range
    else x / 4 == y && x % 4 == e.start
  }

  lemma AbsorbSpelled(e: Entry, y: int)
    requires 0 <= y
    ensures Absorbed(e, y, Absorb(e, y))
  {
    if e.range != 0 {
      DivModUnique(Absorb(e, y), 65536, y / e.range, e.start + y % e.range);
    } else {
      DivModUnique(Absorb(e, y), 4, y, e.start);
    }
  }

  /**
   * A push, without naming how it is computed: some low bytes of the state go in front of the bytes, lowest
   * last, so that what is left is ready for the entry, and the entry is absorbed.
   */
  lemma PushSpelled(e: Entry, c: Cursor)
    requires Settled(c)
    ensures
      var p := Push(e, c);
      || (p.rest == c.rest && Ready(e, c.x) && Absorbed(e, c.x, p.x))
      || (p.rest == [c.x % 256] + c.rest && Ready(e, c.x / 256) && Absorbed(e, c.x / 256, p.x))
      || (p.rest == [c.x / 256 % 256, c.x % 256] + c.rest && Ready(e, c.x / 65536) && Absorbed(e, c.x / 65536, p.x))
  {
    ShedSpelled(c.x, Ceiling(e));
    var y := Shed(c.x, Ceiling(e)).0;
    AbsorbSpelled(e, y);
    ShedFloor(c.x, Ceiling(e), if e.range != 0 then e.range * 128 else 0x20_0000);
    assert [] + c.rest == c.rest;
  }

  /** No two numbers of low bytes leave the state ready, so a push is determined. */
  lemma ReadyOnce(e: Entry, x: int)
    requires 0 <= x
    ensures !(Ready(e, x) && Ready(e, x / 256)) && !(Ready(e, x / 256) && Ready(e, x / 65536)) && !(Ready(e, x) && Ready(e, x / 65536))
  {
    assert x / 256 / 256 == x / 65536;
  }

  /** A sub-stream is the state of all pushes from 2^23 on, low byte first, and then the bytes, last shed first. */
  lemma FlushedSpelled(entries: seq<Entry>)
    ensures
      var c := PushAll(entries, Cursor(0x80_0000, []));
      Flushed(entries) == [c.x % 256, c.x / 0x100 % 256, c.x / 0x1_0000 % 256, c.x / 0x100_0000 % 256] + c.rest
  {
    Le32Bytes(Encoded(entries).x);
  }

  // ----- popping undoes pushing

  lemma RefillStep(x: int, tail: seq<byte>)
    requires 0 <= x < TOP
    ensures Refill(x / 256, [x % 256] + tail) == Refill(x, tail)
  {
    assert ([x % 256] + tail)[1..] == tail;
  }

  /** Refilling takes back exactly the bytes shed, whatever the ceiling was. */
  lemma {:induction false} RefillShed(x: int, ceiling: int, tail: seq<byte>)
    requires 0 <= x < TOP && 0 < ceiling
    ensures Refill(Shed(x, ceiling).0, Shed(x, ceiling).1 + tail) == Refill(x, tail)
    decreases x
  {
    if ceiling <= x {
      RefillShed(x / 256, ceiling, [x % 256] + tail);
      ConcatAssoc(Shed(x / 256, ceiling).1, [x % 256], tail);
      RefillStep(x, tail);
    } else {
      assert [] + tail == tail;
    }
  }

  lemma PopPushRange(e: Entry, c: Cursor)
    requires Settled(c) && e.range != 0
    ensures e.start <= Push(e, c).x % SCALE < e.start + e.range
    ensures PopRange(Push(e, c), e.start, e.range) == Some(c)
  {
    var (y, bytes) := Shed(c.x, Ceiling(e));
    ShedFloor(c.x, Ceiling(e), e.range * 128);
    DivBounds(y, e.range, 128, 0x8000);
    var low := y % e.range + e.start;
    assert Push(e, c).x == (y / e.range) * SCALE + low;
    assert Push(e, c).x / SCALE == y / e.range && Push(e, c).x % SCALE == low;
    RefillShed(c.x, Ceiling(e), c.rest);
  }

  lemma PopPushBits(e: Entry, c: Cursor)
    requires Settled(c) && e.range == 0
    ensures GetBits(Push(e, c)) == Got(e.start, c)
  {
    var m := Ceiling(e);
    var (y, bytes) := Shed(c.x, m);
    assert (y * RADIX + e.start) / RADIX == y && (y * RADIX + e.start) % RADIX == e.start;
    if c.x < m {
      assert [] + c.rest == c.rest;
    } else {
      assert Shed(c.x / 256, m) == (c.x / 256, []);
      assert bytes + c.rest == [c.x % 256] + c.rest;
      assert ([c.x % 256] + c.rest)[1..] == c.rest;
    }
  }

  // ----- how many bytes come out

  predicate IsBypass(entries: seq<Entry>) {
    forall i :: 0 <= i < |entries| ==> entries[i].range == 0
  }

  /** Which quarter (on a base-4 scale) of [2^23, 2^31) the state is in. */
  function Quarter(x: int): (q: int)
    ensures 0 <= q <= 3
  {
    if x < 0x200_0000 then 0 else if x < 0x800_0000 then 1 else if x < 0x2000_0000 then 2 else 3
  }

  lemma BypassByte(e: Entry, c: Cursor)
    requires Settled(c) && e.range == 0
    ensures 4 * |Push(e, c).rest| + Quarter(Push(e, c).x) == 4 * |c.rest| + Quarter(c.x) + 1
  {
    if Ceiling(e) <= c.x {
      assert Shed(c.x / 256, Ceiling(e)) == (c.x / 256, []);
    }
  }

  lemma {:induction false} ShedCount(x: int, ceiling: int)
    requires 0 <= x < TOP && 0x8000 <= ceiling
    ensures |Shed(x, ceiling).1| <= 2
  {
    if ceiling <= x && ceiling <= x / 256 {
      assert Shed(x / 256 / 256, ceiling).1 == [];
    }
  }

  /**
   * A run of m raw two-bit entries sheds exactly floor((q + m) / 4) bytes, q the
   * quarter it started in: between floor(m/4) and ceil(m/4), wherever it starts.
   */
  lemma {:induction false} BypassRunBytes(run: seq<Entry>, c: Cursor)
    requires Settled(c) && IsBypass(run)
    ensures |PushAll(run, c).rest| - |c.rest| == (Quarter(c.x) + |run|) / 4
    ensures |run| / 4 <= |PushAll(run, c).rest| - |c.rest| <= (|run| + 3) / 4
  {
    BypassRunBalance(run, c);
  }

  lemma {:induction false} BypassRunBalance(run: seq<Entry>, c: Cursor)
    requires Settled(c) && IsBypass(run)
    ensures 4 * |PushAll(run, c).rest| + Quarter(PushAll(run, c).x) == 4 * |c.rest| + Quarter(c.x) + |run|
  {
    if run != [] {
      BypassRunBalance(run[1..], c);
      BypassByte(run[0], PushAll(run[1..], c));
    }
  }

  function RangeCount(entries: seq<Entry>): (n: nat)
    ensures n <= |entries|
  {
    if entries == [] then 0
    else (if entries[0].range != 0 then 1 else 0) + RangeCount(entries[1..])
  }

  /** A range entry sheds at most two bytes. */
  lemma RangeBytes(e: Entry, c: Cursor)
    requires Settled(c) && e.range != 0
    ensures |c.rest| <= |Push(e, c).rest| <= |c.rest| + 2
  {
    ShedCount(c.x, Ceiling(e));
  }

  lemma {:induction false} EncodedSize(entries: seq<Entry>)
    ensures 4 * |Encoded(entries).rest| + Quarter(Encoded(entries).x)
         <= |entries| + 10 * RangeCount(entries)
  {
    if entries != [] {
      EncodedSize(entries[1..]);
      if entries[0].range != 0 {
        RangeBytes(entries[0], Encoded(entries[1..]));
      } else {
        BypassByte(entries[0], Encoded(entries[1..]));
      }
    }
  }

  /** Flushing adds the four state bytes to at most 11/4 byte a range entry and 1/4 byte a raw one. */
  lemma FlushedSize(entries: seq<Entry>)
    ensures |Flushed(entries)| == 4 + |Encoded(entries).rest|
    ensures 4 * (|Flushed(entries)| - 4) <= |entries| + 10 * RangeCount(entries)
  {
    EncodedSize(entries);
  }

  // ----- ref_flush, as the loops it is

  /** The renormalising loop: bytes are appended in the order they are shed. */
  method ShedBytes(rev0: seq<byte>, x0: int, ceiling: int) returns (rev: seq<byte>, x: int)
    requires 0 <= x0 && 0 < ceiling
    ensures x == Shed(x0, ceiling).0
    ensures Reversed(rev) == Shed(x0, ceiling).1 + Reversed(rev0)
  {
    rev, x := rev0, x0;
    while ceiling <= x
      invariant 0 <= x
      invariant Shed(x0, ceiling).0 == Shed(x, ceiling).0
      invariant Shed(x0, ceiling).1 + Reversed(rev0) == Shed(x, ceiling).1 + Reversed(rev)
      decreases x
    {
      var low: byte := x % 256;
      ReversedSnoc(rev, low);
      rev, x := rev + [low], x / 256;
    }
  }

  /** The four state bytes go after the others, high byte first, and everything is reversed. */
  method AppendState(rev: seq<byte>, x: int) returns (bytes: seq<byte>)
    requires 0 <= x
    ensures bytes == Le32(x) + Reversed(rev)
  {
    var state: seq<byte> := [x / 0x100_0000 % 256, x / 0x1_0000 % 256, x / 0x100 % 256, x % 256];
    var b1, b2, b3 := state[1..], state[2..], state[3..];
    assert b1[1..] == b2 && b2[1..] == b3;
    assert Reversed(b3) == b3 && Reversed(b2) == b3 + [state[2]];
    Le32Bytes(x);
    assert Reversed(state) == Le32(x);
    ReversedAppend(rev, state);
    bytes := Reversed(rev + state);
  }

  /** The entries are pushed from the last to the first, and the bytes reversed at the end. */
  method RefFlush(entries: seq<Entry>) returns (bytes: seq<byte>)
    ensures bytes == Flushed(entries)
  {
    var rev: seq<byte> := [];
    var x := LOW;
    for i := |entries| downto 0
      invariant Cursor(x, Reversed(rev)) == Encoded(entries[i..])
    {
      var e := entries[i];
      assert entries[i..][1..] == entries[i + 1..];
      if e.range != 0 {
        rev, x := ShedBytes(rev, x, e.range * 0x8000);
        x := (x / e.range) * SCALE + x % e.range + e.start;
      } else {
        rev, x := ShedBytes(rev, x, 0x4000 * 0x8000);
        x := x * RADIX + e.start;
      }
    }
    assert entries[0..] == entries;
    bytes := AppendState(rev, x);
  }
}
