/** The container for the integer arrays of a coded picture: fixed descriptors, then all elements. */
module GvFile {
  import opened Prelude

  const MAGIC: seq<byte> := [0x41, 0x45, 0x49, 0x43, 0x47, 0x56, 0x00, 0x01]
  const FORMAT_VERSION: nat := 1
  const U32_LIMIT := 0x1_0000_0000

  /** An array: 16- or 32-bit elements, as their little-endian bytes. */
  datatype Array = Array(wide: bool, raw: seq<byte>)

  type Name = seq<byte>

  datatype Entry = Entry(name: Name, arr: Array)

  function ItemSize(wide: bool): (w: nat)
    ensures w == 2 || w == 4
  {
    if wide then 4 else 2
  }

  function KindCode(wide: bool): (k: nat)
    ensures k < 2
  {
    if wide then 1 else 0
  }

  /** Whole elements. */
  predicate IsArray(a: Array) {
    |a.raw| % ItemSize(a.wide) == 0
  }

  // ----- names

  /** Without the zero bytes at the end. */
  function Trimmed(name: Name): (t: Name)
    ensures t <= name && (t == [] || t[|t| - 1] != 0)
    ensures t == name <==> name == [] || name[|name| - 1] != 0
  {
    if name == [] || name[|name| - 1] != 0 then name else Trimmed(name[..|name| - 1])
  }

  lemma {:induction false} TrimmedPadding(name: Name, n: nat)
    ensures Trimmed(name + Zeros(n)) == Trimmed(name)
    decreases n
  {
    if n == 0 {
      assert name + Zeros(0) == name;
    } else {
      assert (name + Zeros(n))[..|name| + n - 1] == name + Zeros(n - 1);
      TrimmedPadding(name, n - 1);
    }
  }

  predicate Continues(b: seq<byte>, i: nat) {
    i < |b| && 0x80 <= b[i] <= 0xBF
  }

  /** Well-formed UTF-8: no overlong forms, no surrogates, nothing beyond U+10FFFF. */
  predicate IsUtf8(b: seq<byte>) {
    if b == [] then true
    else if b[0] < 0x80 then IsUtf8(b[1..])
    else if b[0] < 0xC2 then false
    else if b[0] < 0xE0 then Continues(b, 1) && IsUtf8(b[2..])
    else if b[0] < 0xF0 then
      && Continues(b, 1) && Continues(b, 2)
      && (b[0] == 0xE0 ==> 0xA0 <= b[1]) && (b[0] == 0xED ==> b[1] <= 0x9F)
      && IsUtf8(b[3..])
    else if b[0] < 0xF5 then
      && Continues(b, 1) && Continues(b, 2) && Continues(b, 3)
      && (b[0] == 0xF0 ==> 0x90 <= b[1]) && (b[0] == 0xF4 ==> b[1] <= 0x8F)
      && IsUtf8(b[4..])
    else false
  }

  lemma {:induction false} AsciiIsUtf8(b: seq<byte>)
    requires forall i :: 0 <= i < |b| ==> b[i] < 128
    ensures IsUtf8(b)
  {
    if b != [] {
      AsciiIsUtf8(b[1..]);
    }
  }

  // ----- writing

  function Count(a: Array): nat {
    |a.raw| / ItemSize(a.wide)
  }

  function Descriptor(e: Entry): (b: seq<byte>)
    requires Describable(e)
    ensures |b| == 24
  {
    (e.name + Zeros(16 - |e.name|)) + (LeBytes(KindCode(e.arr.wide), 4) + LeBytes(Count(e.arr), 4))
  }

  /** The name is ASCII and not too long, and the elements can be counted. */
  predicate Describable(e: Entry) {
    |e.name| <= 16 && (forall i :: 0 <= i < |e.name| ==> e.name[i] < 128) && Count(e.arr) < U32_LIMIT
  }

  predicate AllDescribable(entries: seq<Entry>) {
    forall i :: 0 <= i < |entries| ==> Describable(entries[i])
  }

  function Descriptors(entries: seq<Entry>): (b: seq<byte>)
    requires AllDescribable(entries)
    ensures |b| == 24 * |entries|
  {
    if entries == [] then [] else Descriptor(entries[0]) + Descriptors(entries[1..])
  }

  function Payload(entries: seq<Entry>): seq<byte> {
    if entries == [] then [] else entries[0].arr.raw + Payload(entries[1..])
  }

  function Head(n: nat): (b: seq<byte>)
    ensures |b| == 16
  {
    MAGIC + (LeBytes(FORMAT_VERSION, 4) + LeBytes(n, 4))
  }

  /** The file; none if an array cannot be described, or there are too many to count. */
  function Written(entries: seq<Entry>): Option<seq<byte>> {
    if !AllDescribable(entries) || U32_LIMIT <= |entries| then None
    else Some(Head(|entries|) + (Descriptors(entries) + Payload(entries)))
  }

  // ----- the file, byte by byte

  /** Name and zeros in 16 bytes, then the type, 1 for 32-bit elements, then their number, low byte first. */
  lemma DescriptorSpelled(e: Entry)
    requires Describable(e)
    ensures
      var n := Count(e.arr);
      Descriptor(e)
      == (e.name + Zeros(16 - |e.name|)) + ([if e.arr.wide then 1 else 0, 0, 0, 0]
         + [n % 256, n / 0x100 % 256, n / 0x1_0000 % 256, n / 0x100_0000 % 256])
  {
    FieldsSpelled(e.arr.wide, Count(e.arr));
  }

  lemma FieldsSpelled(wide: bool, n: nat)
    ensures LeBytes(KindCode(wide), 4) == [if wide then 1 else 0, 0, 0, 0]
    ensures LeBytes(n, 4) == [n % 256, n / 0x100 % 256, n / 0x1_0000 % 256, n / 0x100_0000 % 256]
  {
    Le32Bytes(KindCode(wide));
    Le32Bytes(n);
  }

  /** AEICGV and two marks, the version, the number of arrays; the descriptors; the elements, all in the order given. */
  lemma FileSpelled(entries: seq<Entry>)
    requires Written(entries).Some?
    ensures
      var n := |entries|;
      Written(entries).value
      == ([0x41, 0x45, 0x49, 0x43, 0x47, 0x56, 0, 1] + ([1, 0, 0, 0]
          + [n % 256, n / 0x100 % 256, n / 0x1_0000 % 256, n / 0x100_0000 % 256]))
       + (Flatten(seq(n, i requires 0 <= i < n => Descriptor(entries[i]))) + Flatten(seq(n, i requires 0 <= i < n => entries[i].arr.raw)))
  {
    HeadOfFileSpelled(|entries|);
    DescriptorsInOrder(entries);
    PayloadInOrder(entries);
  }

  lemma HeadOfFileSpelled(n: nat)
    requires n < U32_LIMIT
    ensures Head(n)
      == [0x41, 0x45, 0x49, 0x43, 0x47, 0x56, 0, 1] + ([1, 0, 0, 0]
          + [n % 256, n / 0x100 % 256, n / 0x1_0000 % 256, n / 0x100_0000 % 256])
  {
    Le32Bytes(FORMAT_VERSION);
    Le32Bytes(n);
  }

  lemma {:induction false} DescriptorsInOrder(entries: seq<Entry>)
    requires AllDescribable(entries)
    ensures Descriptors(entries) == Flatten(seq(|entries|, i requires 0 <= i < |entries| => Descriptor(entries[i])))
  {
    if entries != [] {
      DescriptorsInOrder(entries[1..]);
      var all := seq(|entries|, i requires 0 <= i < |entries| => Descriptor(entries[i]));
      assert all[1..] == seq(|entries[1..]|, i requires 0 <= i < |entries[1..]| => Descriptor(entries[1..][i]));
    }
  }

  lemma {:induction false} PayloadInOrder(entries: seq<Entry>)
    ensures Payload(entries) == Flatten(seq(|entries|, i requires 0 <= i < |entries| => entries[i].arr.raw))
  {
    if entries != [] {
      PayloadInOrder(entries[1..]);
      var all := seq(|entries|, i requires 0 <= i < |entries| => entries[i].arr.raw);
      assert all[1..] == seq(|entries[1..]|, i requires 0 <= i < |entries[1..]| => entries[1..][i].arr.raw);
    }
  }

  // ----- reading

  datatype Desc = Desc(name: Name, kind: nat, count: nat)

  /** A little-endian number of four bytes at this place. */
  function Word(raw: seq<byte>, off: nat): nat
    requires off + 4 <= |raw|
  {
    FromLe(raw[off..off + 4])
  }

  function DescAt(raw: seq<byte>, off: nat): Desc
    requires off + 24 <= |raw|
  {
    Desc(Trimmed(raw[off..off + 16]), Word(raw, off + 16), Word(raw, off + 20))
  }

  function Descs(raw: seq<byte>, off: nat, n: nat): (r: Option<seq<Desc>>)
    ensures r.Some? ==> |r.value| == n
    decreases n
  {
    if n == 0 then Some([])
    else if |raw| < off + 24 || !IsUtf8(DescAt(raw, off).name) then None
    else
      match Descs(raw, off + 24, n - 1)
      case None => None
      case Some(ds) => Some([DescAt(raw, off)] + ds)
  }

  function Wide(d: Desc): bool {
    d.kind != 0
  }

  function Extent(d: Desc): nat {
    d.count * ItemSize(Wide(d))
  }

  /** The arrays under their names, from off to the very end; a name met again replaces the array. */
  function Arrays(raw: seq<byte>, off: nat, ds: seq<Desc>, out: map<Name, Array>): Option<map<Name, Array>>
    decreases |ds|
  {
    if ds == [] then (if off == |raw| then Some(out) else None)
    else if |raw| < off + Extent(ds[0]) then None
    else
      var arr := Array(Wide(ds[0]), raw[off..off + Extent(ds[0])]);
      Arrays(raw, off + Extent(ds[0]), ds[1..], out[ds[0].name := arr])
  }

  function ReadBack(raw: seq<byte>): Option<map<Name, Array>> {
    if |raw| < 16 || raw[..8] != MAGIC || Word(raw, 8) != FORMAT_VERSION then None
    else
      match Descs(raw, 16, Word(raw, 12))
      case None => None
      case Some(ds) => Arrays(raw, 16 + 24 * Word(raw, 12), ds, map[])
  }

  // ----- reading undoes writing

  /** The map a reader makes of the entries: names trimmed, later arrays in place of earlier ones. */
  function Collected(entries: seq<Entry>, out: map<Name, Array>): map<Name, Array> {
    if entries == [] then out else Collected(entries[1..], out[Trimmed(entries[0].name) := entries[0].arr])
  }

  function DescOf(e: Entry): Desc {
    Desc(Trimmed(e.name), KindCode(e.arr.wide), Count(e.arr))
  }

  lemma WordReadBack(raw: seq<byte>, off: nat, v: nat)
    requires v < U32_LIMIT && HoldsAt(raw, off, LeBytes(v, 4))
    ensures off + 4 <= |raw| && Word(raw, off) == v
  {
    assert Power256(4) == U32_LIMIT;
    FromLeBytes(v, 4);
  }

  lemma DescReadBack(raw: seq<byte>, off: nat, e: Entry)
    requires Describable(e) && HoldsAt(raw, off, Descriptor(e))
    ensures DescAt(raw, off) == DescOf(e) && IsUtf8(DescOf(e).name)
  {
    AsciiIsUtf8(Trimmed(e.name));
    var name, kind, count := e.name + Zeros(16 - |e.name|), LeBytes(KindCode(e.arr.wide), 4), LeBytes(Count(e.arr), 4);
    HoldsParts(raw, off, name, kind + count);
    HoldsParts(raw, off + 16, kind, count);
    WordReadBack(raw, off + 16, KindCode(e.arr.wide));
    WordReadBack(raw, off + 20, Count(e.arr));
    NameReadBack(raw, off, e.name);
  }

  lemma NameReadBack(raw: seq<byte>, off: nat, name: Name)
    requires |name| <= 16 && HoldsAt(raw, off, name + Zeros(16 - |name|))
    ensures off + 16 <= |raw| && Trimmed(raw[off..off + 16]) == Trimmed(name)
  {
    TrimmedPadding(name, 16 - |name|);
  }

  function DescsOf(entries: seq<Entry>): (ds: seq<Desc>)
    ensures |ds| == |entries|
  {
    if entries == [] then [] else [DescOf(entries[0])] + DescsOf(entries[1..])
  }

  predicate AllArrays(entries: seq<Entry>) {
    forall i :: 0 <= i < |entries| ==> IsArray(entries[i].arr)
  }

  lemma {:induction false} DescsReadBack(raw: seq<byte>, off: nat, entries: seq<Entry>)
    requires AllDescribable(entries) && HoldsAt(raw, off, Descriptors(entries))
    ensures Descs(raw, off, |entries|) == Some(DescsOf(entries))
    decreases |entries|
  {
    if entries != [] {
      HoldsParts(raw, off, Descriptor(entries[0]), Descriptors(entries[1..]));
      DescReadBack(raw, off, entries[0]);
      DescsReadBack(raw, off + 24, entries[1..]);
    }
  }

  lemma ExtentIsLength(e: Entry)
    requires IsArray(e.arr)
    ensures Extent(DescOf(e)) == |e.arr.raw| && Wide(DescOf(e)) == e.arr.wide
  {}

  lemma ArraysStep(raw: seq<byte>, off: nat, d: Desc, ds: seq<Desc>, a: Array, out: map<Name, Array>)
    requires HoldsAt(raw, off, a.raw) && Extent(d) == |a.raw| && Wide(d) == a.wide
    ensures Arrays(raw, off, [d] + ds, out) == Arrays(raw, off + |a.raw|, ds, out[d.name := a])
  {
    assert ([d] + ds)[1..] == ds;
  }

  lemma {:induction false} ArraysReadBack(raw: seq<byte>, off: nat, entries: seq<Entry>, out: map<Name, Array>)
    requires AllArrays(entries) && HoldsAt(raw, off, Payload(entries)) && off + |Payload(entries)| == |raw|
    ensures Arrays(raw, off, DescsOf(entries), out) == Some(Collected(entries, out))
    decreases |entries|
  {
    if entries != [] {
      var e := entries[0];
      HoldsParts(raw, off, e.arr.raw, Payload(entries[1..]));
      ExtentIsLength(e);
      ArraysStep(raw, off, DescOf(e), DescsOf(entries[1..]), e.arr, out);
      ArraysReadBack(raw, off + |e.arr.raw|, entries[1..], out[Trimmed(e.name) := e.arr]);
    }
  }

  predicate HasHead(raw: seq<byte>, n: nat) {
    16 <= |raw| && raw[..8] == MAGIC && Word(raw, 8) == FORMAT_VERSION && Word(raw, 12) == n
  }

  lemma HeadReadBack(raw: seq<byte>, n: nat, head: seq<byte>)
    requires n < U32_LIMIT && head == Head(n) && HoldsAt(raw, 0, head)
    ensures HasHead(raw, n)
  {
    var version, count := LeBytes(FORMAT_VERSION, 4), LeBytes(n, 4);
    HoldsParts(raw, 0, MAGIC, version + count);
    HoldsParts(raw, 8, version, count);
    WordReadBack(raw, 8, FORMAT_VERSION);
    WordReadBack(raw, 12, n);
  }

  lemma FileReadBack(entries: seq<Entry>)
    requires AllArrays(entries) && Written(entries).Some?
    ensures ReadBack(Written(entries).value) == Some(Collected(entries, map[]))
  {
    var n, raw, d, p := |entries|, Written(entries).value, Descriptors(entries), Payload(entries);
    HeadRead(raw, n, Head(n), d + p);
    WrittenReadBack(entries, n, Head(n), d, p, raw, DescsOf(entries), Collected(entries, map[]));
  }

  lemma WrittenReadBack(entries: seq<Entry>, n: nat, head: seq<byte>, d: seq<byte>, p: seq<byte>, raw: seq<byte>,
                        ds: seq<Desc>, out: map<Name, Array>)
    requires AllArrays(entries) && AllDescribable(entries) && n == |entries|
    requires d == Descriptors(entries) && p == Payload(entries) && ds == DescsOf(entries) && out == Collected(entries, map[])
    requires |head| == 16 && raw == head + (d + p) && HasHead(raw, n)
    ensures ReadBack(raw) == Some(out)
  {
    Laid(raw, head, d, p);
    BodyReadBack(raw, entries, d, p, n, ds, out);
    BehindHead(raw, n, ds, out);
  }

  lemma HeadRead(raw: seq<byte>, n: nat, head: seq<byte>, body: seq<byte>)
    requires n < U32_LIMIT && head == Head(n) && raw == head + body
    ensures |head| == 16 && HasHead(raw, n)
  {
    assert HoldsAt(raw, 0, head);
    HeadReadBack(raw, n, head);
  }

  lemma Laid(raw: seq<byte>, head: seq<byte>, d: seq<byte>, p: seq<byte>)
    requires raw == head + (d + p) && |head| == 16
    ensures HoldsAt(raw, 0, head) && HoldsAt(raw, 16, d) && HoldsAt(raw, 16 + |d|, p) && 16 + |d| + |p| == |raw|
  {
    assert raw[0..|raw|] == raw;
    HoldsParts(raw, 0, head, d + p);
    HoldsParts(raw, 16, d, p);
  }

  lemma BodyReadBack(raw: seq<byte>, entries: seq<Entry>, d: seq<byte>, p: seq<byte>, n: nat, ds: seq<Desc>, out: map<Name, Array>)
    requires AllArrays(entries) && AllDescribable(entries) && n == |entries|
    requires d == Descriptors(entries) && p == Payload(entries) && ds == DescsOf(entries) && out == Collected(entries, map[])
    requires HoldsAt(raw, 16, d) && HoldsAt(raw, 16 + |d|, p) && 16 + |d| + |p| == |raw|
    ensures Descs(raw, 16, n) == Some(ds) && Arrays(raw, 16 + 24 * n, ds, map[]) == Some(out)
  {
    DescsReadBack(raw, 16, entries);
    ArraysReadBack(raw, 16 + 24 * |entries|, entries, map[]);
  }

  lemma BehindHead(raw: seq<byte>, n: nat, ds: seq<Desc>, out: map<Name, Array>)
    requires HasHead(raw, n)
    requires Descs(raw, 16, n) == Some(ds) && Arrays(raw, 16 + 24 * n, ds, map[]) == Some(out)
    ensures ReadBack(raw) == Some(out)
  {}

  // ----- when that is what was written

  predicate Distinct(entries: seq<Entry>) {
    forall i, j :: 0 <= i < j < |entries| ==> entries[i].name != entries[j].name
  }

  /** No name ends in a zero byte. */
  predicate NoTrailingZero(entries: seq<Entry>) {
    forall i :: 0 <= i < |entries| ==> Trimmed(entries[i].name) == entries[i].name
  }

  lemma {:induction false} CollectedKeys(entries: seq<Entry>, out: map<Name, Array>, k: Name)
    ensures k in Collected(entries, out) <==> k in out || exists i :: 0 <= i < |entries| && Trimmed(entries[i].name) == k
    decreases |entries|
  {
    if entries != [] {
      var next := out[Trimmed(entries[0].name) := entries[0].arr];
      CollectedKeys(entries[1..], next, k);
      if i :| 0 <= i < |entries[1..]| && Trimmed(entries[1..][i].name) == k {
        assert entries[i + 1] == entries[1..][i];
      }
      if i :| 0 <= i < |entries| && Trimmed(entries[i].name) == k {
        assert i != 0 ==> entries[1..][i - 1] == entries[i];
      }
    }
  }

  lemma {:induction false} CollectedUntouched(entries: seq<Entry>, out: map<Name, Array>, k: Name)
    requires k in out && forall i :: 0 <= i < |entries| ==> Trimmed(entries[i].name) != k
    ensures k in Collected(entries, out) && Collected(entries, out)[k] == out[k]
    decreases |entries|
  {
    if entries != [] {
      CollectedUntouched(entries[1..], out[Trimmed(entries[0].name) := entries[0].arr], k);
    }
  }

  lemma {:induction false} CollectedHoldsAt(entries: seq<Entry>, out: map<Name, Array>, i: nat)
    requires i < |entries| && Distinct(entries) && NoTrailingZero(entries)
    ensures entries[i].name in Collected(entries, out) && Collected(entries, out)[entries[i].name] == entries[i].arr
    decreases |entries|
  {
    var next := out[Trimmed(entries[0].name) := entries[0].arr];
    if i == 0 {
      forall j | 0 <= j < |entries[1..]| ensures Trimmed(entries[1..][j].name) != entries[0].name {
        assert entries[1..][j] == entries[j + 1];
      }
      CollectedUntouched(entries[1..], next, entries[0].name);
    } else {
      assert entries[1..][i - 1] == entries[i];
      CollectedHoldsAt(entries[1..], next, i - 1);
    }
  }

  /** Exactly the arrays written, each under its name. */
  ghost predicate Faithful(entries: seq<Entry>, m: map<Name, Array>) {
    && (forall i :: 0 <= i < |entries| ==> entries[i].name in m && m[entries[i].name] == entries[i].arr)
    && (forall k :: k in m ==> exists i :: 0 <= i < |entries| && entries[i].name == k)
  }

  lemma CollectedIsFaithful(entries: seq<Entry>)
    requires Distinct(entries) && NoTrailingZero(entries)
    ensures Faithful(entries, Collected(entries, map[]))
  {
    var m := Collected(entries, map[]);
    forall i | 0 <= i < |entries| ensures entries[i].name in m && m[entries[i].name] == entries[i].arr {
      CollectedHoldsAt(entries, map[], i);
    }
    forall k | k in m ensures exists i :: 0 <= i < |entries| && entries[i].name == k {
      CollectedKeys(entries, map[], k);
    }
  }

  lemma TrailingZeroIsLost(entries: seq<Entry>)
    requires !NoTrailingZero(entries)
    ensures !Faithful(entries, Collected(entries, map[]))
  {
    var i :| 0 <= i < |entries| && Trimmed(entries[i].name) != entries[i].name;
    CollectedKeys(entries, map[], entries[i].name);
  }

  /**
   * For distinct names, reading gives back exactly what was written, if and only if none ends in a zero byte.
   */
  lemma ReadingUndoesWriting(entries: seq<Entry>)
    requires AllArrays(entries) && Written(entries).Some? && Distinct(entries)
    ensures ReadBack(Written(entries).value) == Some(Collected(entries, map[]))
    ensures Faithful(entries, Collected(entries, map[])) <==> NoTrailingZero(entries)
  {
    FileReadBack(entries);
    if NoTrailingZero(entries) {
      CollectedIsFaithful(entries);
    } else {
      TrailingZeroIsLost(entries);
    }
  }

  // ----- the loops

  method WriteGvFile(entries: seq<Entry>) returns (r: Option<seq<byte>>)
    ensures r == Written(entries)
  {
    if U32_LIMIT <= |entries| {
      return None;
    }
    var descriptors, payload := [], [];
    for i := 0 to |entries|
      invariant AllDescribable(entries[..i])
      invariant AllDescribable(entries[i..]) ==> descriptors + Descriptors(entries[i..]) == Descriptors(entries) && AllDescribable(entries)
      invariant payload + Payload(entries[i..]) == Payload(entries)
    {
      var e := entries[i];
      if !Describable(e) {
        return None;
      }
      WriteStep(entries, i);
      ConcatAssoc(payload, e.arr.raw, Payload(entries[i + 1..]));
      if AllDescribable(entries[i + 1..]) {
        ConcatAssoc(descriptors, Descriptor(e), Descriptors(entries[i + 1..]));
      }
      descriptors := descriptors + Descriptor(e);
      payload := payload + e.arr.raw;
    }
    assert descriptors == Descriptors(entries) && payload == Payload(entries);
    r := Some(Head(|entries|) + (descriptors + payload));
  }

  lemma WriteStep(entries: seq<Entry>, i: nat)
    requires i < |entries| && Describable(entries[i])
    ensures AllDescribable(entries[i..]) <==> AllDescribable(entries[i + 1..])
    ensures AllDescribable(entries[..i]) ==> AllDescribable(entries[..i + 1])
    ensures AllDescribable(entries[i..]) ==> Descriptors(entries[i..]) == Descriptor(entries[i]) + Descriptors(entries[i + 1..])
    ensures Payload(entries[i..]) == entries[i].arr.raw + Payload(entries[i + 1..])
  {
    assert entries[i..][1..] == entries[i + 1..];
    assert entries[i..] == [entries[i]] + entries[i + 1..];
  }

  method ReadGvFile(raw: seq<byte>) returns (r: Option<map<Name, Array>>)
    ensures r == ReadBack(raw)
  {
    if |raw| < 16 || raw[..8] != MAGIC || Word(raw, 8) != FORMAT_VERSION {
      return None;
    }
    var descs := ReadDescs(raw, Word(raw, 12));
    if descs.None? {
      return None;
    }
    r := ReadArrays(raw, 16 + 24 * Word(raw, 12), descs.value);
  }

  method ReadDescs(raw: seq<byte>, n: nat) returns (r: Option<seq<Desc>>)
    ensures r == Descs(raw, 16, n)
  {
    var off, descs := 16, [];
    PrefixedNothing(Descs(raw, 16, n));
    for i := 0 to n
      invariant off == 16 + 24 * i && Descs(raw, 16, n) == Prefixed(descs, Descs(raw, off, n - i))
    {
      if |raw| < off + 24 {
        return None;
      }
      if !IsUtf8(DescAt(raw, off).name) {
        return None;
      }
      PrefixedTwice(descs, [DescAt(raw, off)], Descs(raw, off + 24, n - i - 1));
      descs := descs + [DescAt(raw, off)];
      off := off + 24;
    }
    assert descs + [] == descs;
    r := Some(descs);
  }

  method ReadArrays(raw: seq<byte>, start: nat, descs: seq<Desc>) returns (r: Option<map<Name, Array>>)
    ensures r == Arrays(raw, start, descs, map[])
  {
    var off: nat, out: map<Name, Array> := start, map[];
    assert descs[0..] == descs;
    for i := 0 to |descs|
      invariant Arrays(raw, off, descs[i..], out) == Arrays(raw, start, descs, map[])
    {
      var extent := Extent(descs[i]);
      if |raw| < off + extent {
        return None;
      }
      assert descs[i..][1..] == descs[i + 1..];
      out := out[descs[i].name := Array(Wide(descs[i]), raw[off..off + extent])];
      off := off + extent;
    }
    r := if off == |raw| then Some(out) else None;
  }
}
