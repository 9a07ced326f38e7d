/** Splitting a path into hops, and the hexadecimal names of hops. */
module PathHelper {
  import opened Prelude

  type Hop = seq<byte>

  function Clamp(v: int, lo: int, hi: int): int
    requires lo <= hi
  {
    if v < lo then lo else if hi < v then hi else v
  }

  // ----- names

  function HexDigit(v: int): char
    requires 0 <= v < 16
  {
    if v < 10 then '0' + v as char else 'A' + (v - 10) as char
  }

  function HopHex(b: byte): string {
    [HexDigit(b / 16), HexDigit(b % 16)]
  }

  function FormatHopHex(hop: Hop): (s: string)
    ensures |s| == 2 * |hop|
  {
    if hop == [] then "" else HopHex(hop[0]) + FormatHopHex(hop[1..])
  }

  /** Different hops have different names. */
  lemma {:induction false} FormatHopHexInjective(a: Hop, b: Hop)
    requires FormatHopHex(a) == FormatHopHex(b)
    ensures a == b
  {
    if a != [] {
      var fa, fb := FormatHopHex(a), FormatHopHex(b);
      assert fa[0] == HexDigit(a[0] / 16) && fa[1] == HexDigit(a[0] % 16);
      assert fb[0] == HexDigit(b[0] / 16) && fb[1] == HexDigit(b[0] % 16);
      assert a[0] == b[0];
      assert fa[2..] == FormatHopHex(a[1..]) && fb[2..] == FormatHopHex(b[1..]);
      FormatHopHexInjective(a[1..], b[1..]);
      assert a == [a[0]] + a[1..] && b == [b[0]] + b[1..];
    }
  }

  // ----- hops

  function Split(path: seq<byte>, width: int): (hops: seq<Hop>)
    requires 1 <= width
    decreases |path|
  {
    if path == [] then []
    else if |path| <= width then [path]
    else [path[..width]] + Split(path[width..], width)
  }

  /** The pieces are the path, all of the given width but perhaps the last. */
  lemma {:induction false} SplitCovers(path: seq<byte>, width: int)
    requires 1 <= width
    ensures Flatten(Split(path, width)) == path
    ensures var hops := Split(path, width);
      && (forall i :: 0 <= i < |hops| ==> 1 <= |hops[i]| <= width)
      && (forall i :: 0 <= i < |hops| - 1 ==> |hops[i]| == width)
    decreases |path|
  {
    if |path| > width {
      SplitCovers(path[width..], width);
      FirstHopCovers(path[..width], Split(path[width..], width), width);
    } else if path != [] {
      assert [path][1..] == [];
      assert Flatten([path]) == path + [];
    }
  }

  lemma FirstHopCovers(hop: Hop, rest: seq<Hop>, width: int)
    requires |hop| == width && 1 <= width
    requires forall i :: 0 <= i < |rest| ==> 1 <= |rest[i]| <= width
    requires forall i :: 0 <= i < |rest| - 1 ==> |rest[i]| == width
    ensures
      var hops := [hop] + rest;
      && Flatten(hops) == hop + Flatten(rest)
      && (forall i :: 0 <= i < |hops| ==> 1 <= |hops[i]| <= width)
      && (forall i :: 0 <= i < |hops| - 1 ==> |hops[i]| == width)
  {
    assert ([hop] + rest)[1..] == rest;
  }

  method SplitPathBytes(pathBytes: seq<byte>, hashByteWidth: int) returns (hops: seq<Hop>)
    ensures hops == Split(pathBytes, Clamp(hashByteWidth, 1, 4))
  {
    hops := [];
    if pathBytes == [] {
      return;
    }
    var width := Clamp(hashByteWidth, 1, 4);
    var i := 0;
    assert pathBytes[0..] == pathBytes;
    while i < |pathBytes|
      invariant 0 <= i
      invariant hops + (if i < |pathBytes| then Split(pathBytes[i..], width) else []) == Split(pathBytes, width)
      decreases |pathBytes| - i
    {
      var endIdx := Clamp(i + width, 0, |pathBytes|);
      var hop := pathBytes[i..endIdx];
      ghost var rest := pathBytes[i..];
      if i + width < |pathBytes| {
        assert rest[..width] == hop && rest[width..] == pathBytes[i + width..];
        ConcatAssoc(hops, [hop], Split(pathBytes[i + width..], width));
      } else {
        assert rest == hop;
      }
      if hop != [] {
        hops := hops + [hop];
      }
      i := i + width;
    }
  }
}
