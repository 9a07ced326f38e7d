/** The byte container that ships the sub-streams. */
module RansContainer {
  import opened Prelude

  // ----- ref_container

  function Longest(parts: seq<seq<byte>>): (m: nat)
    ensures forall i :: 0 <= i < |parts| ==> |parts[i]| <= m
  {
    if parts == [] then 0
    else
      var m := Longest(parts[1..]);
      assert forall i :: 1 <= i < |parts| ==> parts[i] == parts[1..][i - 1];
      if m < |parts[0]| then |parts[0]| else m
  }

  function Width(parts: seq<seq<byte>>): (w: nat)
    requires parts != []
  {
    if 65535 < Longest(parts[..|parts| - 1]) then 4 else 2
  }

  function Sizes(parts: seq<seq<byte>>, width: nat): (b: seq<byte>) {
    if parts == [] then [] else LeBytes(|parts[0]|, width) + Sizes(parts[1..], width)
  }

  /** Where the parts start when k sizes of 2 or 4 bytes follow the flag byte. */
  function HeaderEnd(width: nat, k: nat): (end: nat)
    requires width == 2 || width == 4
  {
    if width == 2 then 1 + 2 * k else 1 + 4 * k
  }

  lemma {:induction false} SizesLength(parts: seq<seq<byte>>, width: nat)
    requires width == 2 || width == 4
    ensures 1 + |Sizes(parts, width)| == HeaderEnd(width, |parts|)
  {
    if parts != [] {
      SizesLength(parts[1..], width);
    }
  }

  /** The flag byte must fit, and so must every size but the last, which is not stored. */
  predicate Shippable(parts: seq<seq<byte>>) {
    && 1 <= |parts| <= 16
    && forall i :: 0 <= i < |parts| - 1 ==> |parts[i]| < 0x1_0000_0000
  }

  function Container(parts: seq<seq<byte>>): (r: Option<seq<byte>>)
    ensures r.Some? <==> Shippable(parts)
  {
    if !Shippable(parts) then None
    else
      var w := Width(parts);
      Some([(|parts| - 1) * 16 + (if w == 2 then 1 else 0)]
        + Sizes(parts[..|parts| - 1], w) + Flatten(parts))
  }

  // ----- the container, byte by byte

  lemma {:induction false} LongestReached(parts: seq<seq<byte>>)
    ensures parts != [] ==> exists i :: 0 <= i < |parts| && |parts[i]| == Longest(parts)
  {
    if parts != [] {
      LongestReached(parts[1..]);
      if |parts[0]| < Longest(parts[1..]) {
        var i :| 0 <= i < |parts[1..]| && |parts[1..][i]| == Longest(parts[1..]);
        assert |parts[i + 1]| == Longest(parts);
      } else {
        assert |parts[0]| == Longest(parts);
      }
    }
  }

  /** Two bytes for every stored size if all fit in them, else four. */
  lemma WidthIff(parts: seq<seq<byte>>)
    requires parts != []
    ensures Width(parts) == if forall i :: 0 <= i < |parts| - 1 ==> |parts[i]| <= 65535 then 2 else 4
  {
    var stored := parts[..|parts| - 1];
    LongestReached(stored);
    assert forall i :: 0 <= i < |stored| ==> |parts[i]| == |stored[i]|;
  }

  /** The size of part i, low byte first, where it is stored. */
  predicate SizeStored(stream: seq<byte>, off: nat, width: nat, size: nat) {
    if width == 2 then off + 2 <= |stream| && stream[off..off + 2] == [size % 256, size / 256 % 256]
    else
      off + 4 <= |stream|
      && stream[off..off + 4] == [size % 256, size / 0x100 % 256, size / 0x1_0000 % 256, size / 0x100_0000 % 256]
  }

  lemma TwoBytes(size: nat)
    ensures LeBytes(size, 2) == [size % 256, size / 256 % 256]
  {
    assert LeBytes(size / 256 / 256, 0) == [];
    assert LeBytes(size / 256, 1) == [size / 256 % 256] + [];
  }

  lemma SizeHeld(stream: seq<byte>, off: nat, width: nat, size: nat)
    requires width == 2 || width == 4
    requires HoldsAt(stream, off, LeBytes(size, width))
    ensures SizeStored(stream, off, width, size)
  {
    if width == 2 {
      TwoBytes(size);
    } else {
      Le32Bytes(size);
    }
  }

  lemma {:induction false} SizesSpelled(stream: seq<byte>, off: nat, parts: seq<seq<byte>>, width: nat, i: nat)
    requires (width == 2 || width == 4) && i < |parts| && HoldsAt(stream, off, Sizes(parts, width))
    ensures SizeStored(stream, if width == 2 then off + 2 * i else off + 4 * i, width, |parts[i]|)
    decreases i
  {
    HoldsParts(stream, off, LeBytes(|parts[0]|, width), Sizes(parts[1..], width));
    if i == 0 {
      SizeHeld(stream, off, width, |parts[0]|);
    } else {
      SizesSpelled(stream, off + width, parts[1..], width, i - 1);
    }
  }

  /** A flag with the number of parts less one in its upper half; the sizes of all parts but the last; the parts. */
  predicate Spelled(stream: seq<byte>, parts: seq<seq<byte>>, width: nat)
    requires parts != []
  {
    var k := |parts| - 1;
    var end := if width == 2 then 1 + 2 * k else 1 + 4 * k;
    && stream != [] && stream[0] == 16 * k + (if width == 2 then 1 else 0)
    && (forall i :: 0 <= i < k ==> SizeStored(stream, if width == 2 then 1 + 2 * i else 1 + 4 * i, width, |parts[i]|))
    && end <= |stream| && stream[end..] == Flatten(parts)
  }

  lemma LaidOutSpelled(parts: seq<seq<byte>>, width: nat, flag: byte, stream: seq<byte>)
    requires parts != [] && (width == 2 || width == 4)
    requires flag == 16 * (|parts| - 1) + (if width == 2 then 1 else 0)
    requires stream == ([flag] + Sizes(parts[..|parts| - 1], width)) + Flatten(parts)
    ensures Spelled(stream, parts, width)
  {
    var stored := parts[..|parts| - 1];
    BodyInPlace(flag, stored, width, Sizes(stored, width), Flatten(parts), stream);
    AllSizesSpelled(stream, parts, stored, width);
    RestIs(stream, HeaderEnd(width, |stored|), Flatten(parts));
  }

  lemma RestIs(stream: seq<byte>, end: nat, rest: seq<byte>)
    requires HoldsAt(stream, end, rest) && end + |rest| == |stream|
    ensures stream[end..] == rest
  {}

  lemma AllSizesSpelled(stream: seq<byte>, parts: seq<seq<byte>>, stored: seq<seq<byte>>, width: nat)
    requires (width == 2 || width == 4) && parts != [] && stored == parts[..|parts| - 1]
    requires HoldsAt(stream, 1, Sizes(stored, width))
    ensures forall i :: 0 <= i < |parts| - 1 ==>
      SizeStored(stream, if width == 2 then 1 + 2 * i else 1 + 4 * i, width, |parts[i]|)
  {
    forall i | 0 <= i < |parts| - 1
      ensures SizeStored(stream, if width == 2 then 1 + 2 * i else 1 + 4 * i, width, |parts[i]|)
    {
      SizesSpelled(stream, 1, stored, width, i);
    }
  }

  /** The container, byte by byte; sizes take two bytes if all those stored are at most 65535, else four. */
  lemma ContainerSpelled(parts: seq<seq<byte>>)
    requires Shippable(parts)
    ensures Spelled(Container(parts).value, parts, if forall i :: 0 <= i < |parts| - 1 ==> |parts[i]| <= 65535 then 2 else 4)
  {
    WidthIff(parts);
    var w := Width(parts);
    LaidOutSpelled(parts, w, (|parts| - 1) * 16 + (if w == 2 then 1 else 0), Container(parts).value);
  }

  // ----- parse_container

  function ReadSizes(stream: seq<byte>, off: nat, width: nat, k: nat): (sizes: seq<nat>)
    ensures |sizes| == k
    decreases k
  {
    if k == 0 then []
    else [FromLe(PySlice(stream, off, off + width))] + ReadSizes(stream, off + width, width, k - 1)
  }

  /** Consecutive pieces from p on; the last one ends the stream. */
  function Cut(stream: seq<byte>, p: nat, sizes: seq<nat>): (parts: seq<seq<byte>>)
    ensures |parts| == |sizes| + 1
    decreases |sizes|
  {
    if sizes == [] then [PySlice(stream, p, |stream|)]
    else [PySlice(stream, p, p + sizes[0])] + Cut(stream, p + sizes[0], sizes[1..])
  }

  /** Only the empty stream is refused. */
  function Parsed(stream: seq<byte>): (r: Option<seq<seq<byte>>>)
    ensures r.None? <==> stream == []
    ensures r.Some? ==> |r.value| == stream[0] / 16 + 1
  {
    if stream == [] then None
    else
      var k := stream[0] / 16;
      var width := if stream[0] % 16 == 1 then 2 else 4;
      Some(Cut(stream, HeaderEnd(width, k), ReadSizes(stream, 1, width, k)))
  }

  // ----- parsing undoes building

  function Lengths(parts: seq<seq<byte>>): (ls: seq<nat>)
    ensures |ls| == |parts|
  {
    seq(|parts|, i requires 0 <= i < |parts| => |parts[i]|)
  }

  predicate Storable(parts: seq<seq<byte>>, limit: int) {
    forall i :: 0 <= i < |parts| ==> |parts[i]| < limit
  }

  lemma SliceHeld(stream: seq<byte>, off: nat, piece: seq<byte>)
    requires HoldsAt(stream, off, piece)
    ensures PySlice(stream, off, off + |piece|) == piece
  {}

  lemma {:induction false} SizesReadBack(stream: seq<byte>, off: nat, parts: seq<seq<byte>>, width: nat, limit: int, bytes: seq<byte>)
    requires bytes == Sizes(parts, width) && limit == Power256(width)
    requires HoldsAt(stream, off, bytes) && Storable(parts, limit)
    ensures ReadSizes(stream, off, width, |parts|) == Lengths(parts)
    decreases |parts|
  {
    if parts != [] {
      var rest := parts[1..];
      SizesTail(stream, off, parts, rest, width, limit, bytes);
      SizesReadBack(stream, off + width, rest, width, limit, Sizes(rest, width));
      SizesJoin(stream, off, parts, rest, width);
    }
  }

  lemma SizesTail(stream: seq<byte>, off: nat, parts: seq<seq<byte>>, rest: seq<seq<byte>>, width: nat, limit: int, bytes: seq<byte>)
    requires parts != [] && rest == parts[1..] && bytes == Sizes(parts, width) && limit == Power256(width)
    requires HoldsAt(stream, off, bytes) && Storable(parts, limit)
    ensures FromLe(PySlice(stream, off, off + width)) == |parts[0]| && HoldsAt(stream, off + width, Sizes(rest, width))
    ensures Storable(rest, limit)
  {
    SizesHeld(stream, off, |parts[0]|, Sizes(rest, width), width);
  }

  lemma SizesJoin(stream: seq<byte>, off: nat, parts: seq<seq<byte>>, rest: seq<seq<byte>>, width: nat)
    requires parts != [] && rest == parts[1..] && FromLe(PySlice(stream, off, off + width)) == |parts[0]|
    requires ReadSizes(stream, off + width, width, |rest|) == Lengths(rest)
    ensures ReadSizes(stream, off, width, |parts|) == Lengths(parts)
  {
    ReadSizesFirst(stream, off, width, |parts|, |parts[0]|);
    LengthsFirst(parts);
  }

  lemma SizesHeld(stream: seq<byte>, off: nat, size: nat, rest: seq<byte>, width: nat)
    requires HoldsAt(stream, off, LeBytes(size, width) + rest) && size < Power256(width)
    ensures FromLe(PySlice(stream, off, off + width)) == size && HoldsAt(stream, off + width, rest)
  {
    BytesHeld(stream, off, LeBytes(size, width), rest, width);
    FromLeBytes(size, width);
  }

  lemma BytesHeld(stream: seq<byte>, off: nat, bytes: seq<byte>, rest: seq<byte>, width: nat)
    requires HoldsAt(stream, off, bytes + rest) && |bytes| == width
    ensures PySlice(stream, off, off + width) == bytes && HoldsAt(stream, off + width, rest)
  {
    HoldsParts(stream, off, bytes, rest);
    SliceHeld(stream, off, bytes);
  }

  lemma ReadSizesFirst(stream: seq<byte>, off: nat, width: nat, k: nat, size: nat)
    requires 0 < k && size == FromLe(PySlice(stream, off, off + width))
    ensures ReadSizes(stream, off, width, k) == [size] + ReadSizes(stream, off + width, width, k - 1)
  {}

  lemma LengthsFirst(parts: seq<seq<byte>>)
    requires parts != []
    ensures Lengths(parts) == [|parts[0]|] + Lengths(parts[1..])
  {}

  lemma LengthsStored(parts: seq<seq<byte>>)
    requires 2 <= |parts|
    ensures Lengths(parts[..|parts| - 1]) == [|parts[0]|] + Lengths(parts[1..][..|parts| - 2])
  {}

  lemma CutFirst(stream: seq<byte>, off: nat, size: nat, sizes: seq<nat>)
    ensures Cut(stream, off, [size] + sizes) == [PySlice(stream, off, off + size)] + Cut(stream, off + size, sizes)
  {
    assert ([size] + sizes)[1..] == sizes;
  }

  lemma {:induction false} CutReadBack(stream: seq<byte>, off: nat, parts: seq<seq<byte>>)
    requires parts != [] && HoldsAt(stream, off, Flatten(parts)) && off + |Flatten(parts)| == |stream|
    ensures Cut(stream, off, Lengths(parts[..|parts| - 1])) == parts
    decreases |parts|
  {
    HoldsParts(stream, off, parts[0], Flatten(parts[1..]));
    SliceHeld(stream, off, parts[0]);
    if |parts| == 1 {
      assert parts == [parts[0]];
    } else {
      LengthsStored(parts);
      CutFirst(stream, off, |parts[0]|, Lengths(parts[1..][..|parts| - 2]));
      CutReadBack(stream, off + |parts[0]|, parts[1..]);
      assert [parts[0]] + parts[1..] == parts;
    }
  }

  lemma BodyReadBack(flag: byte, parts: seq<seq<byte>>, width: nat)
    requires parts != [] && flag / 16 == |parts| - 1 && width == (if flag % 16 == 1 then 2 else 4)
    requires forall i :: 0 <= i < |parts| - 1 ==> |parts[i]| < Power256(width)
    ensures Parsed(([flag] + Sizes(parts[..|parts| - 1], width)) + Flatten(parts)) == Some(parts)
  {
    var stored := parts[..|parts| - 1];
    var stream := ([flag] + Sizes(stored, width)) + Flatten(parts);
    BodyInPlace(flag, stored, width, Sizes(stored, width), Flatten(parts), stream);
    assert Storable(stored, Power256(width));
    SizesReadBack(stream, 1, stored, width, Power256(width), Sizes(stored, width));
    CutReadBack(stream, HeaderEnd(width, |stored|), parts);
    ParsedIs(stream, flag, width, Lengths(stored), parts);
  }

  lemma BodyInPlace(flag: byte, stored: seq<seq<byte>>, width: nat, sizes: seq<byte>, rest: seq<byte>, stream: seq<byte>)
    requires (width == 2 || width == 4) && sizes == Sizes(stored, width) && stream == ([flag] + sizes) + rest
    ensures stream != [] && stream[0] == flag && HoldsAt(stream, 1, sizes)
    ensures HoldsAt(stream, HeaderEnd(width, |stored|), rest) && HeaderEnd(width, |stored|) + |rest| == |stream|
  {
    SizesLength(stored, width);
    Laid(stream, [flag], sizes, rest);
  }

  lemma Laid(stream: seq<byte>, a: seq<byte>, b: seq<byte>, c: seq<byte>)
    requires stream == (a + b) + c
    ensures HoldsAt(stream, |a|, b) && HoldsAt(stream, |a| + |b|, c) && |a| + |b| + |c| == |stream|
    ensures a != [] ==> stream[0] == a[0]
  {
    assert stream[0..|stream|] == stream;
    HoldsParts(stream, 0, a + b, c);
    HoldsParts(stream, 0, a, b);
  }

  lemma ParsedIs(stream: seq<byte>, flag: byte, width: nat, sizes: seq<nat>, parts: seq<seq<byte>>)
    requires stream != [] && stream[0] == flag && width == (if flag % 16 == 1 then 2 else 4)
    requires ReadSizes(stream, 1, width, flag / 16) == sizes
    requires Cut(stream, HeaderEnd(width, flag / 16), sizes) == parts
    ensures Parsed(stream) == Some(parts)
  {}

  lemma Powers()
    ensures Power256(2) == 0x1_0000 && Power256(4) == 0x1_0000_0000
  {
    assert Power256(1) == 256;
    assert Power256(3) == 256 * Power256(2);
  }

  /** Parsing a built container gives the parts back, for 1 to 16 parts. */
  lemma ContainerReadBack(parts: seq<seq<byte>>)
    requires Shippable(parts)
    ensures Parsed(Container(parts).value) == Some(parts)
  {
    var w := Width(parts);
    Powers();
    BodyReadBack((|parts| - 1) * 16 + (if w == 2 then 1 else 0), parts, w);
  }

  // ----- the two routines, as loops

  method MaxLength(parts: seq<seq<byte>>) returns (m: nat)
    ensures m == Longest(parts)
  {
    m := 0;
    for i := |parts| downto 0
      invariant m == Longest(parts[i..])
    {
      assert parts[i..][1..] == parts[i + 1..];
      if m < |parts[i]| {
        m := |parts[i]|;
      }
    }
    assert parts[0..] == parts;
  }

  /** Appends every length; a length the width cannot hold raises. */
  method AppendSizes(out0: seq<byte>, parts: seq<seq<byte>>, width: nat) returns (ok: bool, out: seq<byte>)
    ensures ok <==> forall i :: 0 <= i < |parts| ==> |parts[i]| < Power256(width)
    ensures ok ==> out == out0 + Sizes(parts, width)
  {
    out := out0;
    for i := 0 to |parts|
      invariant out + Sizes(parts[i..], width) == out0 + Sizes(parts, width)
      invariant forall j :: 0 <= j < i ==> |parts[j]| < Power256(width)
    {
      if Power256(width) <= |parts[i]| {
        return false, out;
      }
      assert parts[i..][1..] == parts[i + 1..];
      ConcatAssoc(out, LeBytes(|parts[i]|, width), Sizes(parts[i + 1..], width));
      out := out + LeBytes(|parts[i]|, width);
    }
    ok := true;
  }

  method AppendAll(out0: seq<byte>, parts: seq<seq<byte>>) returns (out: seq<byte>)
    ensures out == out0 + Flatten(parts)
  {
    out := out0;
    for i := 0 to |parts|
      invariant out + Flatten(parts[i..]) == out0 + Flatten(parts)
    {
      assert parts[i..][1..] == parts[i + 1..];
      ConcatAssoc(out, parts[i], Flatten(parts[i + 1..]));
      out := out + parts[i];
    }
  }

  /** The chosen width holds the stored sizes exactly if the parts can be shipped. */
  lemma StorableIffShippable(parts: seq<seq<byte>>)
    requires 1 <= |parts| <= 16
    ensures
      var stored := parts[..|parts| - 1];
      (forall i :: 0 <= i < |stored| ==> |stored[i]| < Power256(Width(parts))) <==> Shippable(parts)
  {
    Powers();
    var stored := parts[..|parts| - 1];
    assert forall i :: 0 <= i < |stored| ==> |stored[i]| <= Longest(stored);
    assert forall i :: 0 <= i < |stored| ==> |parts[i]| == |stored[i]|;
  }

  method RefContainer(parts: seq<seq<byte>>) returns (r: Option<seq<byte>>)
    ensures r == Container(parts)
  {
    if !(1 <= |parts| <= 16) {
      return None;
    }
    var stored := parts[..|parts| - 1];
    var maximum := MaxLength(stored);
    var hdr := if 65535 < maximum then 4 else 2;
    StorableIffShippable(parts);
    var ok, out := AppendSizes([(|parts| - 1) * 16 + (if hdr == 2 then 1 else 0)], stored, hdr);
    if !ok {
      return None;
    }
    out := AppendAll(out, parts);
    return Some(out);
  }

  // ----- the loops of the parser

  /** The first i sizes, and what is read from off on, are all k sizes. */
  ghost predicate SizesSoFar(stream: seq<byte>, hdr: nat, k: nat, i: nat, sizes: seq<nat>, off: nat, total: nat)
    requires hdr == 2 || hdr == 4
  {
    && i <= k && sizes + ReadSizes(stream, off, hdr, k - i) == ReadSizes(stream, 1, hdr, k)
    && off == HeaderEnd(hdr, i) && total == Total(sizes)
  }

  lemma SizesStart(stream: seq<byte>, hdr: nat, k: nat)
    requires hdr == 2 || hdr == 4
    ensures SizesSoFar(stream, hdr, k, 0, [], 1, 0)
  {}

  lemma SizesStep(stream: seq<byte>, hdr: nat, k: nat, i: nat, sizes: seq<nat>, off: nat, total: nat, size: nat)
    requires hdr == 2 || hdr == 4
    requires i < k && SizesSoFar(stream, hdr, k, i, sizes, off, total) && size == FromLe(PySlice(stream, off, off + hdr))
    ensures SizesSoFar(stream, hdr, k, i + 1, sizes + [size], off + hdr, total + size)
  {
    TotalSnoc(sizes, size);
    ReadSizesFirst(stream, off, hdr, k - i, size);
    ConcatAssoc(sizes, [size], ReadSizes(stream, off + hdr, hdr, k - i - 1));
  }

  lemma SizesEnd(stream: seq<byte>, hdr: nat, k: nat, sizes: seq<nat>, off: nat, total: nat)
    requires hdr == 2 || hdr == 4
    requires SizesSoFar(stream, hdr, k, k, sizes, off, total)
    ensures sizes == ReadSizes(stream, 1, hdr, k) && off == HeaderEnd(hdr, k) && total == Total(sizes)
  {
    assert sizes + [] == sizes;
  }

  method ReadSizesLoop(stream: seq<byte>, hdr: nat, k: nat) returns (sizes: seq<nat>, off: nat, total: nat)
    requires hdr == 2 || hdr == 4
    ensures sizes == ReadSizes(stream, 1, hdr, k) && off == HeaderEnd(hdr, k) && total == Total(sizes)
  {
    sizes, off, total := [], 1, 0;
    SizesStart(stream, hdr, k);
    for i := 0 to k
      invariant SizesSoFar(stream, hdr, k, i, sizes, off, total)
    {
      sizes, off, total := ReadNextSize(stream, hdr, k, i, sizes, off, total);
    }
    SizesEnd(stream, hdr, k, sizes, off, total);
  }

  method ReadNextSize(stream: seq<byte>, hdr: nat, ghost k: nat, ghost i: nat, sizes0: seq<nat>, off0: nat, total0: nat)
    returns (sizes: seq<nat>, off: nat, total: nat)
    requires hdr == 2 || hdr == 4
    requires i < k && SizesSoFar(stream, hdr, k, i, sizes0, off0, total0)
    ensures SizesSoFar(stream, hdr, k, i + 1, sizes, off, total)
  {
    var size: nat := FromLe(PySlice(stream, off0, off0 + hdr));
    SizesStep(stream, hdr, k, i, sizes0, off0, total0, size);
    sizes, off, total := sizes0 + [size], off0 + hdr, total0 + size;
  }

  /** The parts cut so far, and those cut from p on, are all parts. */
  ghost predicate CutSoFar(stream: seq<byte>, off: nat, sizes: seq<nat>, i: nat, parts: seq<seq<byte>>, p: nat) {
    && i <= |sizes| && parts + Cut(stream, p, sizes[i..]) == Cut(stream, off, sizes)
    && p + Total(sizes[i..]) == off + Total(sizes)
  }

  lemma CutStep(stream: seq<byte>, off: nat, sizes: seq<nat>, i: nat, parts: seq<seq<byte>>, p: nat)
    requires i < |sizes| && CutSoFar(stream, off, sizes, i, parts, p)
    ensures CutSoFar(stream, off, sizes, i + 1, parts + [PySlice(stream, p, p + sizes[i])], p + sizes[i])
  {
    assert sizes[i..][1..] == sizes[i + 1..];
    ConcatAssoc(parts, [PySlice(stream, p, p + sizes[i])], Cut(stream, p + sizes[i], sizes[i + 1..]));
  }

  method CutLoop(stream: seq<byte>, off: nat, sizes: seq<nat>, last: int) returns (parts: seq<seq<byte>>)
    requires off + Total(sizes) + last == |stream|
    ensures parts == Cut(stream, off, sizes)
  {
    var p: nat := off;
    parts := [];
    assert sizes[0..] == sizes;
    for i := 0 to |sizes|
      invariant CutSoFar(stream, off, sizes, i, parts, p)
    {
      CutStep(stream, off, sizes, i, parts, p);
      parts, p := parts + [PySlice(stream, p, p + sizes[i])], p + sizes[i];
    }
    assert p + last == |stream|;
    parts := parts + [PySlice(stream, p, p + last)];
  }

  method ParseContainer(stream: seq<byte>) returns (r: Option<seq<seq<byte>>>)
    ensures r == Parsed(stream)
  {
    if stream == [] {
      return None;
    }
    var k := stream[0] / 16;
    var sizes, off, total := ReadSizesLoop(stream, if stream[0] % 16 == 1 then 2 else 4, k);
    var parts := CutLoop(stream, off, sizes, |stream| - off - total);
    return Some(parts);
  }

  function Total(sizes: seq<nat>): nat {
    if sizes == [] then 0 else sizes[0] + Total(sizes[1..])
  }

  lemma {:induction false} TotalSnoc(sizes: seq<nat>, size: nat)
    ensures Total(sizes + [size]) == Total(sizes) + size
  {
    if sizes != [] {
      assert (sizes + [size])[1..] == sizes[1..] + [size];
      TotalSnoc(sizes[1..], size);
    }
  }
}
