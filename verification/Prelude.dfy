/** Bytes, options and the few sequence facts every other module uses. */
module Prelude {
  type byte = b: int | 0 <= b < 256
  type U32 = x: int | 0 <= x < 0x1_0000_0000

  datatype Option<+T> = None | Some(value: T)

  /** All the pieces one after the other. */
  function Flatten<T>(pieces: seq<seq<T>>): seq<T> {
    if pieces == [] then [] else pieces[0] + Flatten(pieces[1..])
  }

  lemma {:induction false} FlattenAppend<T>(a: seq<seq<T>>, b: seq<seq<T>>)
    ensures Flatten(a + b) == Flatten(a) + Flatten(b)
  {
    if a == [] {
      assert a + b == b;
    } else {
      assert (a + b)[1..] == a[1..] + b;
      FlattenAppend(a[1..], b);
    }
  }

  function Min(a: int, b: int): int {
    if a < b then a else b
  }

  function Reversed<T>(s: seq<T>): (r: seq<T>)
    ensures |r| == |s|
  {
    if s == [] then [] else Reversed(s[1..]) + [s[0]]
  }

  lemma {:induction false} ReversedAppend<T>(a: seq<T>, b: seq<T>)
    ensures Reversed(a + b) == Reversed(b) + Reversed(a)
  {
    if a == [] {
      assert a + b == b;
    } else {
      assert (a + b)[1..] == a[1..] + b;
      ReversedAppend(a[1..], b);
    }
  }

  lemma ReversedSnoc<T>(s: seq<T>, t: T)
    ensures Reversed(s + [t]) == [t] + Reversed(s)
  {
    ReversedAppend(s, [t]);
    assert Reversed([t]) == [] + [t];
  }

  lemma ConcatAssoc<T>(a: seq<T>, b: seq<T>, c: seq<T>)
    ensures a + (b + c) == (a + b) + c
  {}

  /** What follows the front, if it is there. */
  function Prefixed<T>(front: seq<T>, r: Option<seq<T>>): Option<seq<T>> {
    match r
    case None => None
    case Some(back) => Some(front + back)
  }

  lemma PrefixedNothing<T>(r: Option<seq<T>>)
    ensures Prefixed([], r) == r
  {
    if r.Some? {
      assert [] + r.value == r.value;
    }
  }

  lemma PrefixedTwice<T>(a: seq<T>, b: seq<T>, r: Option<seq<T>>)
    ensures Prefixed(a, Prefixed(b, r)) == Prefixed(a + b, r)
  {
    if r.Some? {
      ConcatAssoc(a, b, r.value);
    }
  }

  // ----- little-endian numbers of a given width

  function LeBytes(x: nat, width: nat): (b: seq<byte>)
    ensures |b| == width
    decreases width
  {
    if width == 0 then [] else [x % 256] + LeBytes(x / 256, width - 1)
  }

  function FromLe(b: seq<byte>): (x: nat) {
    if b == [] then 0 else b[0] + 256 * FromLe(b[1..])
  }

  function Power256(k: nat): (p: int)
    ensures 0 < p
  {
    if k == 0 then 1 else 256 * Power256(k - 1)
  }

  lemma {:induction false} FromLeBytes(x: nat, width: nat)
    requires x < Power256(width)
    ensures FromLe(LeBytes(x, width)) == x
    decreases width
  {
    if width != 0 {
      FromLeBytes(x / 256, width - 1);
      assert LeBytes(x, width)[1..] == LeBytes(x / 256, width - 1);
    }
  }

  /** Byte i of a number, low byte first. */
  lemma {:induction false} LeBytesSpelled(x: nat, width: nat)
    ensures forall i :: 0 <= i < width ==> LeBytes(x, width)[i] == x / Power256(i) % 256
    decreases width
  {
    if width != 0 {
      LeBytesSpelled(x / 256, width - 1);
      forall i | 0 <= i < width ensures LeBytes(x, width)[i] == x / Power256(i) % 256 {
        if i != 0 {
          assert LeBytes(x, width)[i] == LeBytes(x / 256, width - 1)[i - 1];
          DivideTwice(x, 256, Power256(i - 1));
        }
      }
    }
  }

  function Le32(x: int): (b: seq<byte>)
    requires 0 <= x
    ensures |b| == 4
  {
    LeBytes(x, 4)
  }

  function FromLe32(b: seq<byte>): (x: U32)
    requires |b| == 4
  {
    FourBytes(b);
    FromLe(b)
  }

  lemma FourBytes(b: seq<byte>)
    requires |b| == 4
    ensures FromLe(b) < 0x1_0000_0000
  {
    assert FromLe(b[3..]) < 0x100 by { assert b[3..][1..] == []; }
    assert b[2..][1..] == b[3..] && FromLe(b[2..]) < 0x1_0000;
    assert b[1..][1..] == b[2..] && FromLe(b[1..]) < 0x100_0000;
  }

  lemma Le32Bytes(x: int)
    requires 0 <= x
    ensures Le32(x) == [x % 256, x / 0x100 % 256, x / 0x1_0000 % 256, x / 0x100_0000 % 256]
  {
    assert x / 0x1_0000 == x / 0x100 / 256 && x / 0x100_0000 == x / 0x1_0000 / 256;
    assert LeBytes(x, 4) == [x % 256] + ([x / 0x100 % 256] + ([x / 0x1_0000 % 256] + ([x / 0x100_0000 % 256] + [])));
  }

  lemma Le32RoundTrip(x: int)
    requires 0 <= x < 0x1_0000_0000
    ensures FromLe32(Le32(x)) == x
  {
    assert Power256(4) == 0x1_0000_0000;
    FromLeBytes(x, 4);
  }

  // ----- pieces of bytes

  /** A Python slice with non-negative bounds: out-of-range bounds are clamped. */
  function PySlice(s: seq<byte>, from: nat, to: nat): seq<byte> {
    if from <= to && from <= |s| then s[from..Min(to, |s|)] else []
  }

  function Zeros(n: nat): (z: seq<byte>)
    ensures |z| == n
  {
    seq(n, _ => 0)
  }

  /** This piece is at this place. */
  predicate HoldsAt(raw: seq<byte>, off: nat, piece: seq<byte>) {
    off + |piece| <= |raw| && raw[off..off + |piece|] == piece
  }

  lemma HoldsParts(raw: seq<byte>, off: nat, a: seq<byte>, b: seq<byte>)
    requires HoldsAt(raw, off, a + b)
    ensures HoldsAt(raw, off, a) && HoldsAt(raw, off + |a|, b)
  {
    var piece := a + b;
    forall k | 0 <= k < |a| ensures raw[off..off + |a|][k] == a[k] {
      assert raw[off..off + |piece|][k] == piece[k];
    }
    forall k | 0 <= k < |b| ensures raw[off + |a|..off + |piece|][k] == b[k] {
      assert raw[off..off + |piece|][|a| + k] == piece[|a| + k];
    }
  }

  // ----- arithmetic

  lemma MulNonNegative(a: int, b: int)
    requires 0 <= a && 0 <= b
    ensures 0 <= a * b
  {}

  /** A quotient and a remainder that fit are those of the division. */
  lemma DivModUnique(x: int, w: int, q: int, r: int)
    requires 0 < w && x == q * w + r && 0 <= r < w
    ensures x / w == q && x % w == r
  {
    var q', r' := x / w, x % w;
    assert x == q' * w + r';
    assert (q' - q) * w == r - r';
    if q' - q != 0 {
      NoSmallMultiple(q' - q, w);
    }
  }

  lemma NoSmallMultiple(k: int, w: int)
    requires 0 < w && k != 0
    ensures k * w <= -w || w <= k * w
  {
    if 0 < k {
      assert k * w == w + (k - 1) * w;
      MulNonNegative(k - 1, w);
    } else {
      assert k * w == -w + (k + 1) * w;
      MulNonNegative(-(k + 1), w);
    }
  }

  /** Dividing by w and then by p is dividing by their product. */
  lemma DivideTwice(x: nat, w: int, p: int)
    requires 0 < w && 0 < p
    ensures 0 < w * p && x / w / p == x / (w * p)
  {
    var q, r := x / w / p, x / w % p;
    MulNonNegative(w - 1, p);
    MulNonNegative(w, p - 1 - r);
    assert x == w * (q * p + r) + x % w;
    assert w * (q * p) == q * (w * p) && (w - 1) * p == w * p - p;
    assert w * (p - 1 - r) == w * p - w - w * r;
    assert w * (q * p + r) == w * (q * p) + w * r;
    MulNonNegative(w, r);
    DivModUnique(x, w * p, q, w * r + x % w);
  }
}
