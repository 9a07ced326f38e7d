/** Named arrays in one file: a head, the elements at aligned offsets, and an index that tells where they are. */
module Recording {
  import opened Prelude

  const MAGIC: seq<byte> := [0x41, 0x45, 0x49, 0x43, 0x52, 0x45, 0x43, 0x31]
  const VERSION: nat := 1
  const HEADER_BYTES: nat := 32
  const ALIGN: nat := 8

  datatype Dtype = F32 | I32 | I16 | U8

  function ItemSize(d: Dtype): (n: nat)
    ensures n == 1 || n == 2 || n == 4
  {
    match d
    case F32 => 4
    case I32 => 4
    case I16 => 2
    case U8 => 1
  }

  function Volume(shape: seq<nat>): nat {
    if shape == [] then 1 else shape[0] * Volume(shape[1..])
  }

  /** The elements as their little-endian bytes. */
  datatype Array = Array(dtype: Dtype, shape: seq<nat>, raw: seq<byte>)

  predicate IsArray(a: Array) {
    |a.raw| == Volume(a.shape) * ItemSize(a.dtype)
  }

  type Arrays = map<string, Array>

  datatype Entry = Entry(name: string, dtype: Dtype, shape: seq<nat>, offset: nat, length: nat)

  // ----- layout

  /** Up to the next multiple of 8. */
  function Pad(off: nat): nat {
    (-(off as int)) % ALIGN
  }

  lemma PadAligns(off: nat)
    ensures Pad(off) < ALIGN && (off + Pad(off)) % ALIGN == 0
  {}

  /** The arrays in this order. */
  predicate Ordered(order: seq<string>, arrays: Arrays) {
    forall i :: 0 <= i < |order| ==> order[i] in arrays
  }

  function Entries(order: seq<string>, arrays: Arrays, off: nat): (es: seq<Entry>)
    requires Ordered(order, arrays)
    ensures |es| == |order|
    decreases |order|
  {
    if order == [] then []
    else
      var a, at := arrays[order[0]], off + Pad(off);
      [Entry(order[0], a.dtype, a.shape, at, |a.raw|)] + Entries(order[1..], arrays, at + |a.raw|)
  }

  /** The bytes from off on: every array after its padding, and padding at the end. */
  function Blob(order: seq<string>, arrays: Arrays, off: nat): (b: seq<byte>)
    requires Ordered(order, arrays)
    decreases |order|
  {
    if order == [] then Zeros(Pad(off))
    else
      var a := arrays[order[0]];
      Zeros(Pad(off)) + (a.raw + Blob(order[1..], arrays, off + Pad(off) + |a.raw|))
  }

  /** The extents are aligned, apart, in ascending order, and between off and end. */
  predicate LaidOut(es: seq<Entry>, off: nat, end: nat) {
    && off <= end
    && (forall i :: 0 <= i < |es| ==> es[i].offset % 8 == 0 && off <= es[i].offset && es[i].offset + es[i].length <= end)
    && (forall i, j :: 0 <= i < j < |es| ==> es[i].offset + es[i].length <= es[j].offset)
  }

  /** No gap of 8 bytes or more, before, between or after them. */
  predicate Tight(es: seq<Entry>, off: nat, end: nat) {
    if es == [] then end < off + 8
    else es[0].offset < off + 8 && Tight(es[1..], es[0].offset + es[0].length, end)
  }

  lemma LaidOutCons(e: Entry, es: seq<Entry>, off: nat, end: nat)
    requires e.offset % 8 == 0 && off <= e.offset && LaidOut(es, e.offset + e.length, end)
    ensures LaidOut([e] + es, off, end)
  {}

  lemma {:induction false} EntriesLaidOut(order: seq<string>, arrays: Arrays, off: nat)
    requires Ordered(order, arrays)
    ensures LaidOut(Entries(order, arrays, off), off, off + |Blob(order, arrays, off)|)
    ensures Tight(Entries(order, arrays, off), off, off + |Blob(order, arrays, off)|)
    ensures (off + |Blob(order, arrays, off)|) % 8 == 0
    decreases |order|
  {
    PadAligns(off);
    if order != [] {
      var next := off + Pad(off) + |arrays[order[0]].raw|;
      EntriesLaidOut(order[1..], arrays, next);
      FirstOfBlob(order, arrays, off, order[1..], next);
      FirstLaidOut(order, arrays, off, order[1..], next, off + |Blob(order, arrays, off)|);
    }
  }

  lemma FirstOfBlob(order: seq<string>, arrays: Arrays, off: nat, rest: seq<string>, next: nat)
    requires Ordered(order, arrays) && order != [] && rest == order[1..] && next == off + Pad(off) + |arrays[order[0]].raw|
    ensures off + |Blob(order, arrays, off)| == next + |Blob(rest, arrays, next)|
  {}

  lemma FirstLaidOut(order: seq<string>, arrays: Arrays, off: nat, rest: seq<string>, next: nat, end: nat)
    requires Ordered(order, arrays) && order != [] && rest == order[1..] && next == off + Pad(off) + |arrays[order[0]].raw|
    requires LaidOut(Entries(rest, arrays, next), next, end) && Tight(Entries(rest, arrays, next), next, end)
    ensures LaidOut(Entries(order, arrays, off), off, end) && Tight(Entries(order, arrays, off), off, end)
  {
    var a, at := arrays[order[0]], off + Pad(off);
    PadAligns(off);
    var e := Entry(order[0], a.dtype, a.shape, at, |a.raw|);
    EntriesFirst(order, arrays, off, rest, next, e);
    ConsLaidOut(e, Entries(rest, arrays, next), Entries(order, arrays, off), off, end);
  }

  lemma EntriesFirst(order: seq<string>, arrays: Arrays, off: nat, rest: seq<string>, next: nat, e: Entry)
    requires Ordered(order, arrays) && order != [] && rest == order[1..] && next == off + Pad(off) + |arrays[order[0]].raw|
    requires var a := arrays[order[0]]; e == Entry(order[0], a.dtype, a.shape, off + Pad(off), |a.raw|)
    ensures Entries(order, arrays, off) == [e] + Entries(rest, arrays, next)
  {}

  lemma ConsLaidOut(e: Entry, es: seq<Entry>, all: seq<Entry>, off: nat, end: nat)
    requires all == [e] + es && e.offset % 8 == 0 && off <= e.offset < off + 8
    requires LaidOut(es, e.offset + e.length, end) && Tight(es, e.offset + e.length, end)
    ensures LaidOut(all, off, end) && Tight(all, off, end)
  {
    LaidOutCons(e, es, off, end);
    TightCons(e, es, off, end);
  }

  lemma TightCons(e: Entry, es: seq<Entry>, off: nat, end: nat)
    requires e.offset < off + 8 && Tight(es, e.offset + e.length, end)
    ensures Tight([e] + es, off, end)
  {
    assert ([e] + es)[1..] == es;
  }

  // ----- the file

  function Head(indexOff: nat, indexLen: nat): (b: seq<byte>)
    ensures |b| == HEADER_BYTES
  {
    MAGIC + ((LeBytes(VERSION, 4) + LeBytes(0, 4)) + (LeBytes(indexOff, 8) + (LeBytes(indexLen, 4) + LeBytes(0, 4))))
  }

  /** None if the head has no room for the numbers. */
  function File(order: seq<string>, arrays: Arrays, dumps: seq<Entry> -> seq<byte>): Option<seq<byte>>
    requires Ordered(order, arrays)
  {
    Assembled(Blob(order, arrays, HEADER_BYTES), dumps(Entries(order, arrays, HEADER_BYTES)))
  }

  function Assembled(blob: seq<byte>, index: seq<byte>): Option<seq<byte>> {
    if 0x1_0000_0000_0000_0000 <= HEADER_BYTES + |blob| || 0x1_0000_0000 <= |index| then None
    else Some(Head(HEADER_BYTES + |blob|, |index|) + (blob + index))
  }

  function Number(raw: seq<byte>, off: nat, width: nat): nat
    requires off + width <= |raw|
  {
    FromLe(raw[off..off + width])
  }

  /** The array an entry tells of; none if it is cut off, or does not have the shape. */
  function ArrayAt(raw: seq<byte>, e: Entry): Option<Array> {
    var count := e.length / ItemSize(e.dtype);
    var bytes := count * ItemSize(e.dtype);
    if |raw| < e.offset + bytes || count != Volume(e.shape) then None
    else Some(Array(e.dtype, e.shape, raw[e.offset..e.offset + bytes]))
  }

  function ArraysAt(raw: seq<byte>, es: seq<Entry>, out: Arrays): Option<Arrays>
    decreases |es|
  {
    if es == [] then Some(out)
    else
      match ArrayAt(raw, es[0])
      case None => None
      case Some(a) => ArraysAt(raw, es[1..], out[es[0].name := a])
  }

  predicate HasHead(raw: seq<byte>) {
    HEADER_BYTES <= |raw| && raw[..8] == MAGIC && Number(raw, 8, 4) == VERSION
  }

  function Index(raw: seq<byte>): seq<byte>
    requires HasHead(raw)
  {
    PySlice(raw, Number(raw, 16, 8), Number(raw, 16, 8) + Number(raw, 24, 4))
  }

  function ReadBack(raw: seq<byte>, loads: seq<byte> -> Option<seq<Entry>>): Option<Arrays> {
    if !HasHead(raw) then None
    else
      match loads(Index(raw))
      case None => None
      case Some(es) => ArraysAt(raw, es, map[])
  }

  lemma SmallNumbers()
    ensures LeBytes(1, 4) == [1, 0, 0, 0] && LeBytes(0, 4) == [0, 0, 0, 0]
  {
    Le32Bytes(1);
    Le32Bytes(0);
  }

  /** AEICREC1, the version, no flags; where the index is and how long, low byte first; and four zeros. */
  lemma HeadSpelled(indexOff: nat, indexLen: nat, at: seq<byte>, len: seq<byte>)
    requires at == LeBytes(indexOff, 8)
    requires len == [indexLen % 256, indexLen / 0x100 % 256, indexLen / 0x1_0000 % 256, indexLen / 0x100_0000 % 256]
    ensures Head(indexOff, indexLen)
      == [0x41, 0x45, 0x49, 0x43, 0x52, 0x45, 0x43, 0x31] + (([1, 0, 0, 0] + [0, 0, 0, 0]) + (at + (len + [0, 0, 0, 0])))
  {
    SmallNumbers();
    Le32Bytes(indexLen);
    HeadIs([1, 0, 0, 0], [0, 0, 0, 0], at, len, indexOff, indexLen);
  }

  lemma HeadIs(version: seq<byte>, zeros: seq<byte>, at: seq<byte>, len: seq<byte>, indexOff: nat, indexLen: nat)
    requires version == LeBytes(1, 4) && zeros == LeBytes(0, 4) && at == LeBytes(indexOff, 8) && len == LeBytes(indexLen, 4)
    ensures Head(indexOff, indexLen) == MAGIC + ((version + zeros) + (at + (len + zeros)))
  {}

  // ----- reading undoes writing

  lemma NumberReadBack(raw: seq<byte>, off: nat, v: nat, width: nat)
    requires v < Power256(width) && HoldsAt(raw, off, LeBytes(v, width))
    ensures off + width <= |raw| && Number(raw, off, width) == v
  {
    FromLeBytes(v, width);
  }

  lemma Powers()
    ensures Power256(4) == 0x1_0000_0000 && Power256(8) == 0x1_0000_0000_0000_0000
  {
    assert Power256(4) == 0x1_0000_0000;
    assert Power256(8) == 256 * (256 * (256 * (256 * Power256(4))));
  }

  lemma HeadReadBack(raw: seq<byte>, indexOff: nat, indexLen: nat, head: seq<byte>)
    requires indexOff < 0x1_0000_0000_0000_0000 && indexLen < 0x1_0000_0000
    requires head == Head(indexOff, indexLen) && HoldsAt(raw, 0, head)
    ensures HasHead(raw) && Number(raw, 16, 8) == indexOff && Number(raw, 24, 4) == indexLen
  {
    var version, flags := LeBytes(VERSION, 4), LeBytes(0, 4);
    var at, len := LeBytes(indexOff, 8), LeBytes(indexLen, 4);
    HoldsParts(raw, 0, MAGIC, (version + flags) + (at + (len + flags)));
    HoldsParts(raw, 8, version + flags, at + (len + flags));
    HoldsParts(raw, 8, version, flags);
    HoldsParts(raw, 16, at, len + flags);
    HoldsParts(raw, 24, len, flags);
    Powers();
    NumberReadBack(raw, 8, VERSION, 4);
    NumberReadBack(raw, 16, indexOff, 8);
    NumberReadBack(raw, 24, indexLen, 4);
  }

  lemma ArrayReadBack(raw: seq<byte>, name: string, a: Array, at: nat)
    requires IsArray(a) && HoldsAt(raw, at, a.raw)
    ensures ArrayAt(raw, Entry(name, a.dtype, a.shape, at, |a.raw|)) == Some(a)
  {
    DivModUnique(|a.raw|, ItemSize(a.dtype), Volume(a.shape), 0);
  }

  /** The arrays of this order, put into out one after the other. */
  function Restored(order: seq<string>, arrays: Arrays, out: Arrays): Arrays
    requires Ordered(order, arrays)
    decreases |order|
  {
    if order == [] then out else Restored(order[1..], arrays, out[order[0] := arrays[order[0]]])
  }

  predicate AllArrays(arrays: Arrays) {
    forall k :: k in arrays ==> IsArray(arrays[k])
  }

  lemma {:induction false} BlobReadBack(raw: seq<byte>, order: seq<string>, arrays: Arrays, off: nat, out: Arrays)
    requires Ordered(order, arrays) && AllArrays(arrays) && HoldsAt(raw, off, Blob(order, arrays, off))
    ensures ArraysAt(raw, Entries(order, arrays, off), out) == Some(Restored(order, arrays, out))
    decreases |order|
  {
    if order != [] {
      var a, at := arrays[order[0]], off + Pad(off);
      var rest := Blob(order[1..], arrays, at + |a.raw|);
      HoldsParts(raw, off, Zeros(Pad(off)), a.raw + rest);
      HoldsParts(raw, at, a.raw, rest);
      ArrayReadBack(raw, order[0], a, at);
      BlobReadBack(raw, order[1..], arrays, at + |a.raw|, out[order[0] := a]);
    }
  }

  lemma {:induction false} RestoredIs(order: seq<string>, arrays: Arrays, out: Arrays)
    requires Ordered(order, arrays) && forall k :: k in out ==> k in arrays && out[k] == arrays[k]
    requires forall k :: k in arrays ==> k in out || k in order
    ensures Restored(order, arrays, out) == arrays
    decreases |order|
  {
    if order == [] {
      assert out.Keys == arrays.Keys;
    } else {
      RestoredIs(order[1..], arrays, out[order[0] := arrays[order[0]]]);
    }
  }

  lemma Laid(raw: seq<byte>, head: seq<byte>, blob: seq<byte>, index: seq<byte>)
    requires raw == head + (blob + index) && |head| == HEADER_BYTES
    ensures HoldsAt(raw, 0, head) && HoldsAt(raw, HEADER_BYTES, blob)
    ensures PySlice(raw, HEADER_BYTES + |blob|, HEADER_BYTES + |blob| + |index|) == index
  {
    assert raw[0..|raw|] == raw;
    HoldsParts(raw, 0, head, blob + index);
    HoldsParts(raw, HEADER_BYTES, blob, index);
  }

  /** Provided the index is read as written: every array comes back, with its type, shape and elements. */
  lemma ReadingUndoesWriting(order: seq<string>, arrays: Arrays, dumps: seq<Entry> -> seq<byte>, loads: seq<byte> -> Option<seq<Entry>>)
    requires Ordered(order, arrays) && AllArrays(arrays) && (forall k :: k in arrays ==> k in order)
    requires File(order, arrays, dumps).Some?
    requires var es := Entries(order, arrays, HEADER_BYTES); loads(dumps(es)) == Some(es)
    ensures ReadBack(File(order, arrays, dumps).value, loads) == Some(arrays)
  {
    var es, blob := Entries(order, arrays, HEADER_BYTES), Blob(order, arrays, HEADER_BYTES);
    var raw := Assembled(blob, dumps(es)).value;
    IndexReadBack(raw, blob, dumps(es));
    ArraysReadBack(raw, order, arrays);
    ReadBackIs(raw, loads, es, arrays);
  }

  lemma ArraysReadBack(raw: seq<byte>, order: seq<string>, arrays: Arrays)
    requires Ordered(order, arrays) && AllArrays(arrays) && (forall k :: k in arrays ==> k in order)
    requires HoldsAt(raw, HEADER_BYTES, Blob(order, arrays, HEADER_BYTES))
    ensures ArraysAt(raw, Entries(order, arrays, HEADER_BYTES), map[]) == Some(arrays)
  {
    BlobReadBack(raw, order, arrays, HEADER_BYTES, map[]);
    RestoredIs(order, arrays, map[]);
  }

  lemma ReadBackIs(raw: seq<byte>, loads: seq<byte> -> Option<seq<Entry>>, es: seq<Entry>, arrays: Arrays)
    requires HasHead(raw) && loads(Index(raw)) == Some(es) && ArraysAt(raw, es, map[]) == Some(arrays)
    ensures ReadBack(raw, loads) == Some(arrays)
  {}

  lemma IndexReadBack(raw: seq<byte>, blob: seq<byte>, index: seq<byte>)
    requires HEADER_BYTES + |blob| < 0x1_0000_0000_0000_0000 && |index| < 0x1_0000_0000
    requires raw == Head(HEADER_BYTES + |blob|, |index|) + (blob + index)
    ensures HasHead(raw) && Index(raw) == index && HoldsAt(raw, HEADER_BYTES, blob)
  {
    var head := Head(HEADER_BYTES + |blob|, |index|);
    Laid(raw, head, blob, index);
    HeadReadBack(raw, HEADER_BYTES + |blob|, |index|, head);
  }

  // ----- the object

  predicate NoneTwice(order: seq<string>) {
    forall i, j :: 0 <= i < j < |order| ==> order[i] != order[j]
  }

  /** What is gathered of the first i arrays, and what follows from off on, is the whole. */
  ghost predicate Gathered(order: seq<string>, arrays: Arrays, i: nat, off: nat, entries: seq<Entry>, blob: seq<byte>)
    requires Ordered(order, arrays) && i <= |order|
  {
    && entries + Entries(order[i..], arrays, off) == Entries(order, arrays, HEADER_BYTES)
    && blob + Blob(order[i..], arrays, off) == Blob(order, arrays, HEADER_BYTES)
  }

  lemma GatheredStep(order: seq<string>, arrays: Arrays, i: nat, off: nat, entries: seq<Entry>, blob: seq<byte>)
    requires Ordered(order, arrays) && i < |order| && Gathered(order, arrays, i, off, entries, blob)
    ensures
      var a, at := arrays[order[i]], off + Pad(off);
      Gathered(order, arrays, i + 1, at + |a.raw|, entries + [Entry(order[i], a.dtype, a.shape, at, |a.raw|)],
               (blob + Zeros(Pad(off))) + a.raw)
  {
    var a, at := arrays[order[i]], off + Pad(off);
    var rest := order[i + 1..];
    assert order[i..] == [order[i]] + rest;
    ConcatAssoc(entries, [Entry(order[i], a.dtype, a.shape, at, |a.raw|)], Entries(rest, arrays, at + |a.raw|));
    Appended(blob, Zeros(Pad(off)), a.raw, Blob(rest, arrays, at + |a.raw|));
  }

  /** The entries, and the bytes they tell of. */
  method Gather(order: seq<string>, arrays: Arrays) returns (entries: seq<Entry>, blob: seq<byte>)
    requires Ordered(order, arrays)
    ensures entries == Entries(order, arrays, HEADER_BYTES) && blob == Blob(order, arrays, HEADER_BYTES)
  {
    var off: nat := HEADER_BYTES;
    entries, blob := [], [];
    GatheredStart(order, arrays);
    for i := 0 to |order|
      invariant Gathered(order, arrays, i, off, entries, blob)
    {
      GatheredStep(order, arrays, i, off, entries, blob);
      var a, pad := arrays[order[i]], Pad(off);
      entries := entries + [Entry(order[i], a.dtype, a.shape, off + pad, |a.raw|)];
      blob := blob + Zeros(pad) + a.raw;
      off := off + pad + |a.raw|;
    }
    GatheredEnd(order, arrays, off, entries, blob);
    blob := blob + Zeros(Pad(off));
  }

  lemma GatheredStart(order: seq<string>, arrays: Arrays)
    requires Ordered(order, arrays)
    ensures Gathered(order, arrays, 0, HEADER_BYTES, [], [])
  {
    assert order[0..] == order;
  }

  lemma GatheredEnd(order: seq<string>, arrays: Arrays, off: nat, entries: seq<Entry>, blob: seq<byte>)
    requires Ordered(order, arrays) && Gathered(order, arrays, |order|, off, entries, blob)
    ensures entries == Entries(order, arrays, HEADER_BYTES) && blob + Zeros(Pad(off)) == Blob(order, arrays, HEADER_BYTES)
  {
    assert entries + [] == entries;
  }

  class Recorder {
    var arrays: Arrays
    var order: seq<string>

    ghost predicate Valid()
      reads this
    {
      AllArrays(arrays) && NoneTwice(order) && Ordered(order, arrays) && forall k :: k in arrays ==> k in order
    }

    constructor ()
      ensures Valid() && arrays == map[] && order == []
    {
      arrays, order := map[], [];
    }

    /** A name can be used once. */
    method Put(name: string, a: Array) returns (ok: bool)
      requires Valid() && IsArray(a)
      modifies this
      ensures Valid() && ok == (name !in old(arrays))
      ensures arrays == (if ok then old(arrays)[name := a] else old(arrays))
      ensures order == if ok then old(order) + [name] else old(order)
    {
      ok := name !in arrays;
      if ok {
        arrays := arrays[name := a];
        order := order + [name];
      }
    }

    method Write(dumps: seq<Entry> -> seq<byte>) returns (r: Option<seq<byte>>)
      requires Valid()
      ensures r == File(order, arrays, dumps)
    {
      var entries, blob := Gather(order, arrays);
      r := Assemble(blob, dumps(entries));
    }
  }

  /** Head, arrays and index, one after the other. */
  method Assemble(blob: seq<byte>, index: seq<byte>) returns (r: Option<seq<byte>>)
    ensures r == Assembled(blob, index)
  {
    var off := HEADER_BYTES + |blob|;
    if 0x1_0000_0000_0000_0000 <= off || 0x1_0000_0000 <= |index| {
      return None;
    }
    r := Some(Head(off, |index|) + (blob + index));
  }

  lemma Appended(a: seq<byte>, b: seq<byte>, c: seq<byte>, d: seq<byte>)
    ensures a + (b + (c + d)) == ((a + b) + c) + d
  {}

  method ReadRecording(raw: seq<byte>, loads: seq<byte> -> Option<seq<Entry>>) returns (r: Option<Arrays>)
    ensures r == ReadBack(raw, loads)
  {
    if !HasHead(raw) {
      return None;
    }
    var entries := loads(Index(raw));
    if entries.None? {
      return None;
    }
    var out: Arrays := map[];
    var es := entries.value;
    assert es[0..] == es;
    for i := 0 to |es|
      invariant ArraysAt(raw, es[i..], out) == ReadBack(raw, loads)
    {
      var a := ArrayAt(raw, es[i]);
      if a.None? {
        return None;
      }
      assert es[i..][1..] == es[i + 1..];
      out := out[es[i].name := a.value];
    }
    r := Some(out);
  }
}
