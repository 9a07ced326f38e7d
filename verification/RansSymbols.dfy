/**
 * From integer symbols to coder entries and back: the cumulative tables, the
 * escape code for values a table does not list, and the decoding of one slice
 * of symbols from one sub-stream.
 */
module RansSymbols {
  import opened Prelude
  import opened RansState

  // ----- tables

  /** Row i describes len[i] - 1 slots; the last of them is the escape slot. */
  datatype Table = Table(cdfs: seq<seq<int>>, lens: seq<int>, offsets: seq<int>)

  predicate ValidRow(row: seq<int>, n: int) {
    && 2 <= n <= |row|
    && row[0] == 0 && row[n - 1] == SCALE
    && forall i, j :: 0 <= i < j < n ==> row[i] < row[j]
  }

  predicate ValidTable(t: Table) {
    && |t.cdfs| == |t.lens| == |t.offsets|
    && forall k :: 0 <= k < |t.cdfs| ==> ValidRow(t.cdfs[k], t.lens[k])
  }

  /** The entry of slot s. */
  function SlotEntry(row: seq<int>, n: int, s: int): (e: Entry)
    requires ValidRow(row, n) && 0 <= s < n - 1
    ensures e.range != 0
  {
    SlotInScale(row, n, s);
    Code(row[s], row[s + 1] - row[s])
  }

  lemma SlotInScale(row: seq<int>, n: int, s: int)
    requires ValidRow(row, n) && 0 <= s < n - 1
    ensures 0 <= row[s] < row[s + 1] <= SCALE
  {
    assert s == 0 || row[0] < row[s];
    assert s + 1 == n - 1 || row[s + 1] < row[n - 1];
  }

  /** The slot whose interval holds cum. */
  function SlotOf(row: seq<int>, n: int, cum: int, s: int): (r: int)
    requires ValidRow(row, n) && 0 <= s < n - 1 && row[s] <= cum < SCALE
    ensures s <= r < n - 1 && row[r] <= cum < row[r + 1]
    decreases n - s
  {
    if cum < row[s + 1] then s else SlotOf(row, n, cum, s + 1)
  }

  lemma SlotUnique(row: seq<int>, n: int, cum: int, a: int, b: int)
    requires ValidRow(row, n) && 0 <= a < n - 1 && 0 <= b < n - 1
    requires row[a] <= cum < row[a + 1] && row[b] <= cum < row[b + 1]
    ensures a == b
  {
  }

  // ----- the escape code

  /** Base-4 digits, low first, no leading zero. */
  function Digits(raw: nat): (ds: seq<nat>)
    ensures forall i :: 0 <= i < |ds| ==> ds[i] < RADIX
  {
    if raw == 0 then [] else [raw % RADIX] + Digits(raw / RADIX)
  }

  /** A count in chunks of three, closed by a digit below three. */
  function CountEntries(n: nat): seq<Entry> {
    if 3 <= n then [Code(3, 0)] + CountEntries(n - 3) else [Code(n, 0)]
  }

  function DigitEntries(ds: seq<nat>): (es: seq<Entry>)
    requires forall i :: 0 <= i < |ds| ==> ds[i] < RADIX
    ensures |es| == |ds|
  {
    if ds == [] then [] else [Code(ds[0], 0)] + DigitEntries(ds[1..])
  }

  function EscapeEntries(raw: nat): seq<Entry> {
    CountEntries(|Digits(raw)|) + DigitEntries(Digits(raw))
  }

  /** Where a value goes: its slot, and the zig-zag number the escape slot carries. */
  datatype Place = Place(slot: int, raw: nat)

  function Placed(value: int, maxValue: int): (p: Place)
    requires 0 <= maxValue
    ensures 0 <= p.slot <= maxValue
  {
    if value < 0 then Place(maxValue, -2 * value - 1)
    else if maxValue <= value then Place(maxValue, 2 * (value - maxValue))
    else Place(value, 0)
  }

  function Unescaped(raw: nat, maxValue: int): int {
    if raw % 2 == 1 then -(raw / 2) - 1 else raw / 2 + maxValue
  }

  lemma UnescapedPlaced(symbol: int, offset: int, maxValue: int)
    requires 0 <= maxValue
    ensures
      var p := Placed(symbol - offset, maxValue);
      symbol == (if p.slot == maxValue then Unescaped(p.raw, maxValue) else p.slot) + offset
  {}

  // ----- the escape code, entry by entry

  function Power4(k: nat): (p: nat)
    ensures 0 < p
  {
    if k == 0 then 1 else 4 * Power4(k - 1)
  }

  /** There are as many digits as the number needs, and digit j is its j-th one to base 4. */
  lemma {:induction false} DigitsSpelled(raw: nat)
    ensures raw < Power4(|Digits(raw)|) && (raw != 0 ==> Power4(|Digits(raw)| - 1) <= raw) && (raw == 0 ==> Digits(raw) == [])
    ensures forall j :: 0 <= j < |Digits(raw)| ==> Digits(raw)[j] == raw / Power4(j) % 4
  {
    if raw != 0 {
      DigitsSpelled(raw / 4);
      var ds, later := Digits(raw), Digits(raw / 4);
      assert raw != 0 && raw / 4 == 0 ==> Power4(0) == 1;
      forall j | 0 <= j < |ds| ensures ds[j] == raw / Power4(j) % 4 {
        if j != 0 {
          assert ds[j] == later[j - 1];
          DivideTwice(raw, 4, Power4(j - 1));
        }
      }
    }
  }

  /** The count is sent as threes and a last entry below three. */
  lemma {:induction false} CountSpelled(n: nat)
    ensures |CountEntries(n)| == n / 3 + 1 && CountEntries(n)[n / 3] == Code(n % 3, 0)
    ensures forall i :: 0 <= i < n / 3 ==> CountEntries(n)[i] == Code(3, 0)
  {
    if 3 <= n {
      CountSpelled(n - 3);
    }
  }

  lemma {:induction false} DigitEntriesSpelled(ds: seq<nat>)
    requires forall i :: 0 <= i < |ds| ==> ds[i] < RADIX
    ensures forall i :: 0 <= i < |ds| ==> DigitEntries(ds)[i] == Code(ds[i], 0)
  {
    if ds != [] {
      DigitEntriesSpelled(ds[1..]);
    }
  }

  /**
   * The escape code of a number, entry by entry: with n the number of its base-4 digits, n / 3 threes, n % 3,
   * and the n digits, lowest first, all as bypass entries.
   */
  lemma EscapeSpelled(raw: nat, n: nat)
    requires raw < Power4(n) && (n != 0 ==> Power4(n - 1) <= raw)
    ensures
      var es := EscapeEntries(raw);
      && |es| == n / 3 + 1 + n && es[n / 3] == Code(n % 3, 0)
      && (forall i :: 0 <= i < n / 3 ==> es[i] == Code(3, 0))
      && (forall j :: 0 <= j < n ==> es[n / 3 + 1 + j] == Code(raw / Power4(j) % 4, 0))
  {
    var ds := Digits(raw);
    DigitsSpelled(raw);
    LengthUnique(raw, n, |ds|);
    CountSpelled(n);
    DigitEntriesSpelled(ds);
  }

  lemma LengthUnique(raw: nat, m: nat, n: nat)
    requires raw < Power4(m) && (m != 0 ==> Power4(m - 1) <= raw)
    requires raw < Power4(n) && (n != 0 ==> Power4(n - 1) <= raw)
    ensures m == n
  {
    if m < n {
      Power4Grows(m, n - 1);
    } else if n < m {
      Power4Grows(n, m - 1);
    }
  }

  lemma {:induction false} Power4Grows(m: nat, n: nat)
    requires m <= n
    ensures Power4(m) <= Power4(n)
    decreases n
  {
    if m < n {
      Power4Grows(m, n - 1);
    }
  }

  /** Escaped values are numbered outwards: the k-th from the end of the row on is 2k, the k-th below zero 2k + 1. */
  lemma PlacedSpelled(k: nat, maxValue: int)
    requires 0 <= maxValue
    ensures Placed(maxValue + k, maxValue) == Place(maxValue, 2 * k)
    ensures Placed(-1 - k, maxValue) == Place(maxValue, 2 * k + 1)
    ensures k < maxValue ==> Placed(k, maxValue) == Place(k, 0)
  {}

  // ----- entries of a slice

  function SymbolEntries(row: seq<int>, n: int, offset: int, symbol: int): seq<Entry>
    requires ValidRow(row, n)
  {
    var p := Placed(symbol - offset, n - 2);
    [SlotEntry(row, n, p.slot)] + if p.slot == n - 2 then EscapeEntries(p.raw) else []
  }

  predicate ValidIndexes(indexes: seq<int>, t: Table) {
    forall i :: 0 <= i < |indexes| ==> indexes[i] < |t.cdfs|
  }

  function SliceEntries(symbols: seq<int>, indexes: seq<int>, t: Table): seq<Entry>
    requires |symbols| == |indexes| && ValidTable(t) && ValidIndexes(indexes, t)
  {
    if symbols == [] then []
    else
      IndexedEntries(symbols[0], indexes[0], t) + SliceEntries(symbols[1..], indexes[1..], t)
  }

  /** A negative index pushes nothing. */
  function IndexedEntries(symbol: int, k: int, t: Table): seq<Entry>
    requires ValidTable(t) && k < |t.cdfs|
  {
    if k < 0 then [] else SymbolEntries(t.cdfs[k], t.lens[k], t.offsets[k], symbol)
  }

  /** The entries of a slice come symbol after symbol. */
  lemma {:induction false} SliceAppend(sa: seq<int>, ia: seq<int>, sb: seq<int>, ib: seq<int>, t: Table)
    requires |sa| == |ia| && |sb| == |ib| && ValidTable(t) && ValidIndexes(ia, t) && ValidIndexes(ib, t)
    ensures ValidIndexes(ia + ib, t)
    ensures SliceEntries(sa + sb, ia + ib, t) == SliceEntries(sa, ia, t) + SliceEntries(sb, ib, t)
  {
    if sa == [] {
      assert sa + sb == sb && ia + ib == ib;
    } else {
      assert (sa + sb)[1..] == sa[1..] + sb && (ia + ib)[1..] == ia[1..] + ib;
      SliceAppend(sa[1..], ia[1..], sb, ib, t);
      ConcatAssoc(IndexedEntries(sa[0], ia[0], t), SliceEntries(sa[1..], ia[1..], t), SliceEntries(sb, ib, t));
    }
  }

  /**
   * One symbol: nothing for a negative index; else, with v its distance from the offset, the slot v of the row
   * if there is one before the last, or else the last slot and the escape code of its zig-zag number.
   */
  lemma SymbolSpelled(symbol: int, k: int, t: Table, row: seq<int>, n: int, v: int)
    requires ValidTable(t) && k < |t.cdfs|
    requires 0 <= k ==> row == t.cdfs[k] && n == t.lens[k] && v == symbol - t.offsets[k]
    ensures k < 0 ==> SliceEntries([symbol], [k], t) == []
    ensures 0 <= k && 0 <= v < n - 2 ==> SliceEntries([symbol], [k], t) == [Code(row[v], row[v + 1] - row[v])]
    ensures 0 <= k && !(0 <= v < n - 2) ==>
      SliceEntries([symbol], [k], t)
      == [Code(row[n - 2], row[n - 1] - row[n - 2])] + EscapeEntries(if v < 0 then 2 * (-1 - v) + 1 else 2 * (v - (n - 2)))
  {
    assert [symbol][1..] == [] && [k][1..] == [];
    assert IndexedEntries(symbol, k, t) + [] == IndexedEntries(symbol, k, t);
  }

  // ----- reading entries back

  /** Adds what was read before to the scaled rest. */
  function Plus(v: int, scale: int, r: Reading): Reading {
    match r
    case Starved => Starved
    case Got(w, c) => Got(v + scale * w, c)
  }

  function ReadCount(c: Cursor): (r: Reading)
    requires 0 <= c.x
    ensures r.Got? ==> 0 <= r.v && 0 <= r.next.x
    decreases |c.rest|, c.x
  {
    match GetBits(c)
    case Starved => Starved
    case Got(v, c1) =>
      if v != 3 then Got(v, c1) else Plus(3, 1, ReadCount(c1))
  }

  function ReadDigits(c: Cursor, n: nat): (r: Reading)
    requires 0 <= c.x
    ensures r.Got? ==> 0 <= r.v && 0 <= r.next.x
    decreases n
  {
    if n == 0 then Got(0, c)
    else
      match GetBits(c)
      case Starved => Starved
      case Got(v, c1) => Plus(v, RADIX, ReadDigits(c1, n - 1))
  }

  function ReadEscape(c: Cursor): (r: Reading)
    requires 0 <= c.x
    ensures r.Got? ==> 0 <= r.v && 0 <= r.next.x
  {
    match ReadCount(c)
    case Starved => Starved
    case Got(n, c1) => ReadDigits(c1, n)
  }

  function ReadSymbol(row: seq<int>, n: int, offset: int, c: Cursor): (r: Reading)
    requires ValidRow(row, n) && 0 <= c.x
    ensures r.Got? ==> 0 <= r.next.x
  {
    var s := SlotOf(row, n, c.x % SCALE, 0);
    match PopRange(c, row[s], row[s + 1] - row[s])
    case None => Starved
    case Some(c1) =>
      if s != n - 2 then Got(s + offset, c1)
      else
        match ReadEscape(c1)
        case Starved => Starved
        case Got(raw, c2) => Got(Unescaped(raw, n - 2) + offset, c2)
  }

  /** The symbols of a slice and the place after it. */
  datatype Slice = Broken | Whole(values: seq<int>, next: Cursor)

  /** Decodes one slice: a negative index yields 0 and reads nothing. */
  function ReadSlice(indexes: seq<int>, t: Table, c: Cursor): (r: Slice)
    requires ValidTable(t) && ValidIndexes(indexes, t) && 0 <= c.x
    ensures r.Whole? ==> |r.values| == |indexes| && 0 <= r.next.x
  {
    if indexes == [] then Whole([], c)
    else
      match ReadIndexed(indexes[0], t, c)
      case Starved => Broken
      case Got(v, c1) =>
        match ReadSlice(indexes[1..], t, c1)
        case Broken => Broken
        case Whole(vs, c2) => Whole([v] + vs, c2)
  }

  function ReadIndexed(k: int, t: Table, c: Cursor): (r: Reading)
    requires ValidTable(t) && k < |t.cdfs| && 0 <= c.x
    ensures r.Got? ==> 0 <= r.next.x
  {
    if k < 0 then Got(0, c) else ReadSymbol(t.cdfs[k], t.lens[k], t.offsets[k], c)
  }

  function Kept(symbols: seq<int>, indexes: seq<int>): (r: seq<int>)
    requires |symbols| == |indexes|
    ensures |r| == |symbols|
  {
    seq(|symbols|, i requires 0 <= i < |symbols| => if indexes[i] < 0 then 0 else symbols[i])
  }

  // ----- reading undoes pushing

  lemma {:induction false} CountReadBack(n: nat, c: Cursor)
    requires Settled(c)
    ensures ReadCount(PushAll(CountEntries(n), c)) == Got(n, c)
  {
    var es := CountEntries(n);
    PopPushBits(es[0], PushAll(es[1..], c));
    if 3 <= n {
      assert es[1..] == CountEntries(n - 3);
      CountReadBack(n - 3, c);
    }
  }

  lemma DigitReadBack(d: nat, above: Cursor, n: nat, high: nat, c: Cursor)
    requires d < RADIX && Settled(above)
    requires ReadDigits(above, n) == Got(high, c)
    ensures ReadDigits(Push(Code(d, 0), above), n + 1) == Got(d + RADIX * high, c)
  {
    PopPushBits(Code(d, 0), above);
  }

  lemma {:induction false} DigitsReadBack(raw: nat, c: Cursor)
    requires Settled(c)
    ensures ReadDigits(PushAll(DigitEntries(Digits(raw)), c), |Digits(raw)|) == Got(raw, c)
  {
    if raw != 0 {
      var ds := Digits(raw / RADIX);
      assert Digits(raw)[1..] == ds;
      assert DigitEntries(Digits(raw))[1..] == DigitEntries(ds);
      DigitsReadBack(raw / RADIX, c);
      DigitReadBack(raw % RADIX, PushAll(DigitEntries(ds), c), |ds|, raw / RADIX, c);
    }
  }

  /** The escape code is uniquely decodable: it is read back whatever follows it, and nothing more is read. */
  lemma EscapeReadBack(raw: nat, c: Cursor)
    requires Settled(c)
    ensures ReadEscape(PushAll(EscapeEntries(raw), c)) == Got(raw, c)
  {
    var ds := DigitEntries(Digits(raw));
    PushAllAppend(CountEntries(|Digits(raw)|), ds, c);
    CountReadBack(|Digits(raw)|, PushAll(ds, c));
    DigitsReadBack(raw, c);
  }

  lemma SlotReadBack(row: seq<int>, n: int, slot: int, c: Cursor)
    requires ValidRow(row, n) && 0 <= slot < n - 1 && Settled(c)
    ensures CanPop(row, n, slot, Push(SlotEntry(row, n, slot), c), c)
  {
    PopPushRange(SlotEntry(row, n, slot), c);
  }

  /** At p, the entry of slot can be popped, leaving c. */
  predicate CanPop(row: seq<int>, n: int, slot: int, p: Cursor, c: Cursor)
    requires ValidRow(row, n) && 0 <= slot < n - 1
  {
    && 0 <= p.x && row[slot] <= p.x % SCALE < row[slot + 1]
    && PopRange(p, row[slot], row[slot + 1] - row[slot]) == Some(c)
  }

  lemma ReadPlain(row: seq<int>, n: int, offset: int, slot: int, p: Cursor, c: Cursor)
    requires ValidRow(row, n) && 0 <= slot < n - 2 && CanPop(row, n, slot, p, c)
    ensures ReadSymbol(row, n, offset, p) == Got(slot + offset, c)
  {
    SlotUnique(row, n, p.x % SCALE, slot, SlotOf(row, n, p.x % SCALE, 0));
  }

  lemma ReadEscaped(row: seq<int>, n: int, offset: int, raw: nat, symbol: int, p: Cursor, above: Cursor, c: Cursor)
    requires ValidRow(row, n) && CanPop(row, n, n - 2, p, above)
    requires ReadEscape(above) == Got(raw, c)
    requires symbol == Unescaped(raw, n - 2) + offset
    ensures ReadSymbol(row, n, offset, p) == Got(symbol, c)
  {
    SlotUnique(row, n, p.x % SCALE, n - 2, SlotOf(row, n, p.x % SCALE, 0));
  }

  lemma SymbolPushed(row: seq<int>, n: int, offset: int, symbol: int, c: Cursor)
    requires ValidRow(row, n) && Settled(c)
    ensures
      var p := Placed(symbol - offset, n - 2);
      PushAll(SymbolEntries(row, n, offset, symbol), c)
      == Push(SlotEntry(row, n, p.slot), if p.slot == n - 2 then PushAll(EscapeEntries(p.raw), c) else c)
  {
    var p := Placed(symbol - offset, n - 2);
    var es := SymbolEntries(row, n, offset, symbol);
    assert es[0] == SlotEntry(row, n, p.slot);
    assert es[1..] == if p.slot == n - 2 then EscapeEntries(p.raw) else [];
  }

  lemma PlainReadBack(row: seq<int>, n: int, offset: int, slot: int, symbol: int, c: Cursor)
    requires ValidRow(row, n) && 0 <= slot < n - 2 && Settled(c)
    requires symbol == slot + offset
    ensures ReadSymbol(row, n, offset, Push(SlotEntry(row, n, slot), c)) == Got(symbol, c)
  {
    SlotReadBack(row, n, slot, c);
    ReadPlain(row, n, offset, slot, Push(SlotEntry(row, n, slot), c), c);
  }

  lemma EscapedReadBack(row: seq<int>, n: int, offset: int, raw: nat, symbol: int, above: Cursor, c: Cursor)
    requires ValidRow(row, n) && Settled(above)
    requires ReadEscape(above) == Got(raw, c)
    requires symbol == Unescaped(raw, n - 2) + offset
    ensures ReadSymbol(row, n, offset, Push(SlotEntry(row, n, n - 2), above)) == Got(symbol, c)
  {
    SlotReadBack(row, n, n - 2, above);
    ReadEscaped(row, n, offset, raw, symbol, Push(SlotEntry(row, n, n - 2), above), above, c);
  }

  lemma SymbolReadBack(row: seq<int>, n: int, offset: int, symbol: int, c: Cursor)
    requires ValidRow(row, n) && Settled(c)
    ensures ReadSymbol(row, n, offset, PushAll(SymbolEntries(row, n, offset, symbol), c)) == Got(symbol, c)
  {
    var p := Placed(symbol - offset, n - 2);
    UnescapedPlaced(symbol, offset, n - 2);
    SymbolPushed(row, n, offset, symbol, c);
    if p.slot == n - 2 {
      EscapeReadBack(p.raw, c);
      EscapedReadBack(row, n, offset, p.raw, symbol, PushAll(EscapeEntries(p.raw), c), c);
    } else {
      PlainReadBack(row, n, offset, p.slot, symbol, c);
    }
  }

  lemma IndexedReadBack(symbol: int, k: int, t: Table, c: Cursor)
    requires ValidTable(t) && k < |t.cdfs| && Settled(c)
    ensures ReadIndexed(k, t, PushAll(IndexedEntries(symbol, k, t), c)) == Got(if k < 0 then 0 else symbol, c)
  {
    if 0 <= k {
      SymbolReadBack(t.cdfs[k], t.lens[k], t.offsets[k], symbol, c);
    }
  }

  /** A slice read from where its entries were pushed gives its symbols back and stops right after them. */
  lemma {:induction false} SliceReadBack(symbols: seq<int>, indexes: seq<int>, t: Table, c: Cursor)
    requires |symbols| == |indexes| && ValidTable(t) && ValidIndexes(indexes, t) && Settled(c)
    ensures ReadSlice(indexes, t, PushAll(SliceEntries(symbols, indexes, t), c))
         == Whole(Kept(symbols, indexes), c)
  {
    if symbols != [] {
      var later := SliceEntries(symbols[1..], indexes[1..], t);
      SliceReadBack(symbols[1..], indexes[1..], t, c);
      PushAllAppend(IndexedEntries(symbols[0], indexes[0], t), later, c);
      IndexedReadBack(symbols[0], indexes[0], t, PushAll(later, c));
      assert Kept(symbols, indexes)
          == [if indexes[0] < 0 then 0 else symbols[0]] + Kept(symbols[1..], indexes[1..]);
    }
  }

  // ----- ref_push_symbols, as the loops it is

  /** raw >> (2 * k) */
  function Shifted(raw: nat, k: nat): (r: nat)
    decreases k
  {
    if k == 0 then raw else Shifted(raw, k - 1) / RADIX
  }

  method CountDigits(raw: nat) returns (nBypass: nat)
    ensures nBypass == |Digits(raw)|
  {
    nBypass := 0;
    while Shifted(raw, nBypass) != 0
      invariant |Digits(raw)| == nBypass + |Digits(Shifted(raw, nBypass))|
      decreases |Digits(raw)| - nBypass
    {
      nBypass := nBypass + 1;
    }
  }

  method PushCount(out0: seq<Entry>, nBypass: nat) returns (out: seq<Entry>)
    ensures out == out0 + CountEntries(nBypass)
  {
    var val := nBypass;
    out := out0;
    while 3 <= val
      invariant 0 <= val && out + CountEntries(val) == out0 + CountEntries(nBypass)
    {
      ConcatAssoc(out, [Code(3, 0)], CountEntries(val - 3));
      out, val := out + [Code(3, 0)], val - 3;
    }
    out := out + [Code(val, 0)];
  }

  method PushDigits(out0: seq<Entry>, raw: nat, nBypass: nat) returns (out: seq<Entry>)
    requires nBypass == |Digits(raw)|
    ensures out == out0 + DigitEntries(Digits(raw))
  {
    out := out0;
    for j := 0 to nBypass
      invariant |Digits(Shifted(raw, j))| == nBypass - j
      invariant out + DigitEntries(Digits(Shifted(raw, j))) == out0 + DigitEntries(Digits(raw))
    {
      var rest := Shifted(raw, j);
      assert Digits(rest)[1..] == Digits(rest / RADIX);
      ConcatAssoc(out, [Code(rest % RADIX, 0)], DigitEntries(Digits(rest / RADIX)));
      out := out + [Code(rest % RADIX, 0)];
    }
  }

  method PlaceOf(value0: int, maxValue: int) returns (value: int, raw: nat)
    requires 0 <= maxValue
    ensures Place(value, raw) == Placed(value0, maxValue)
  {
    value, raw := value0, 0;
    if value < 0 {
      raw := -2 * value - 1;
      value := maxValue;
    } else if maxValue <= value {
      raw := 2 * (value - maxValue);
      value := maxValue;
    }
  }

  method PushEscape(out0: seq<Entry>, raw: nat) returns (out: seq<Entry>)
    ensures out == out0 + EscapeEntries(raw)
  {
    var nBypass := CountDigits(raw);
    out := PushCount(out0, nBypass);
    out := PushDigits(out, raw, nBypass);
    ConcatAssoc(out0, CountEntries(nBypass), DigitEntries(Digits(raw)));
  }

  method PushSymbol(out0: seq<Entry>, row: seq<int>, n: int, offset: int, symbol: int)
    returns (out: seq<Entry>)
    requires ValidRow(row, n)
    ensures out == out0 + SymbolEntries(row, n, offset, symbol)
  {
    var value, raw := PlaceOf(symbol - offset, n - 2);
    var e := SlotEntry(row, n, value);
    out := out0 + [e];
    if value == n - 2 {
      out := PushEscape(out, raw);
      ConcatAssoc(out0, [e], EscapeEntries(raw));
    } else {
      assert [e] + [] == [e];
    }
  }

  method RefPushSymbols(out0: seq<Entry>, symbols: seq<int>, indexes: seq<int>, t: Table)
    returns (out: seq<Entry>)
    requires |symbols| == |indexes| && ValidTable(t) && ValidIndexes(indexes, t)
    ensures out == out0 + SliceEntries(symbols, indexes, t)
  {
    out := out0;
    for i := 0 to |symbols|
      invariant out + SliceEntries(symbols[i..], indexes[i..], t) == out0 + SliceEntries(symbols, indexes, t)
    {
      assert symbols[i..][1..] == symbols[i + 1..] && indexes[i..][1..] == indexes[i + 1..];
      var k := indexes[i];
      ConcatAssoc(out, IndexedEntries(symbols[i], k, t), SliceEntries(symbols[i + 1..], indexes[i + 1..], t));
      if k < 0 {
        assert out + [] == out;
        continue;
      }
      out := PushSymbol(out, t.cdfs[k], t.lens[k], t.offsets[k], symbols[i]);
    }
  }

  // ----- the decoding loops of ref_decode, over a buffer and a pointer

  /** What a pointer has left to read; a pointer may start past the end of a short buffer. */
  function Tail(buf: seq<byte>, ptr: nat): seq<byte> {
    if ptr <= |buf| then buf[ptr..] else []
  }

  /** upper_bound(row[0:n], cum) - 1 */
  method Bisect(row: seq<int>, n: int, cum: int) returns (s: int)
    requires ValidRow(row, n) && 0 <= cum < SCALE
    ensures s == SlotOf(row, n, cum, 0)
  {
    var lo, hi := 0, n;
    while lo < hi
      invariant 0 <= lo <= hi <= n
      invariant 0 < lo ==> row[lo - 1] <= cum
      invariant hi < n ==> cum < row[hi]
    {
      var mid := (lo + hi) / 2;
      if cum < row[mid] {
        hi := mid;
      } else {
        lo := mid + 1;
      }
    }
    s := lo - 1;
    SlotUnique(row, n, cum, s, SlotOf(row, n, cum, 0));
  }

  /** x, ptr stand where reading c got to; ok tells whether the bytes sufficed. */
  predicate Stands(c: Option<Cursor>, ok: bool, buf: seq<byte>, x: int, ptr: nat) {
    if ok then c == Some(Cursor(x, Tail(buf, ptr))) else c == None
  }

  predicate StandsAfter(r: Reading, ok: bool, v: int, buf: seq<byte>, x: int, ptr: nat) {
    if ok then r == Got(v, Cursor(x, Tail(buf, ptr))) else r == Starved
  }

  method Renormalise(buf: seq<byte>, x0: int, ptr0: nat) returns (ok: bool, x: int, ptr: nat)
    requires 0 <= x0
    ensures Stands(Refill(x0, Tail(buf, ptr0)), ok, buf, x, ptr)
  {
    x, ptr := x0, ptr0;
    while x < LOW
      invariant 0 <= x && Refill(x0, Tail(buf, ptr0)) == Refill(x, Tail(buf, ptr))
      decreases |buf| - ptr
    {
      if |buf| <= ptr {
        return false, x, ptr;
      }
      RefillTurn(buf, x, ptr);
      x, ptr := (x * 256 + buf[ptr]) % 0x1_0000_0000, ptr + 1;
    }
    ok := true;
  }

  lemma RefillTurn(buf: seq<byte>, x: int, ptr: nat)
    requires 0 <= x < LOW && ptr < |buf|
    ensures Refill(x, Tail(buf, ptr)) == Refill((x * 256 + buf[ptr]) % 0x1_0000_0000, Tail(buf, ptr + 1))
  {
    assert Tail(buf, ptr)[1..] == Tail(buf, ptr + 1);
  }

  method ReadBits(buf: seq<byte>, x0: int, ptr0: nat) returns (ok: bool, v: int, x: int, ptr: nat)
    requires 0 <= x0
    ensures StandsAfter(GetBits(Cursor(x0, Tail(buf, ptr0))), ok, v, buf, x, ptr)
  {
    v, x, ptr := x0 % RADIX, x0 / RADIX, ptr0;
    if x < LOW {
      if |buf| <= ptr {
        return false, v, x, ptr;
      }
      assert Tail(buf, ptr)[1..] == Tail(buf, ptr + 1);
      x, ptr := (x * 256 + buf[ptr]) % 0x1_0000_0000, ptr + 1;
    }
    ok := true;
  }

  method ReadCountLoop(buf: seq<byte>, x0: int, ptr0: nat) returns (ok: bool, n: nat, x: int, ptr: nat)
    requires 0 <= x0
    ensures StandsAfter(ReadCount(Cursor(x0, Tail(buf, ptr0))), ok, n, buf, x, ptr)
  {
    ghost var start := Cursor(x0, Tail(buf, ptr0));
    var val;
    n := 0;
    ok, val, x, ptr := ReadBits(buf, x0, ptr0);
    if !ok { return; }
    n := val;
    ghost var here := start;
    while val == 3
      invariant 0 <= val && val <= n && 0 <= here.x
      invariant GetBits(here) == Got(val, Cursor(x, Tail(buf, ptr)))
      invariant ReadCount(start) == Plus(n - val, 1, ReadCount(here))
      decreases |here.rest|, here.x
    {
      here := Cursor(x, Tail(buf, ptr));
      ok, val, x, ptr := ReadBits(buf, x, ptr);
      if !ok { return; }
      n := n + val;
    }
    ok := true;
  }

  lemma PlusPlus(raw: int, p: int, v: int, r: Reading)
    ensures Plus(raw, p, Plus(v, RADIX, r)) == Plus(raw + p * v, RADIX * p, r)
  {
    if r.Got? {
      assert p * (v + RADIX * r.v) == p * v + RADIX * p * r.v;
    }
  }

  method ReadDigitsLoop(buf: seq<byte>, x0: int, ptr0: nat, n: nat)
    returns (ok: bool, raw: int, x: int, ptr: nat)
    requires 0 <= x0
    ensures StandsAfter(ReadDigits(Cursor(x0, Tail(buf, ptr0)), n), ok, raw, buf, x, ptr)
  {
    ghost var start := Cursor(x0, Tail(buf, ptr0));
    ok, raw, x, ptr := true, 0, x0, ptr0;
    for j := 0 to n
      invariant ok && 0 <= x
      invariant ReadDigits(start, n) == Plus(raw, Power4(j), ReadDigits(Cursor(x, Tail(buf, ptr)), n - j))
    {
      ghost var here := Cursor(x, Tail(buf, ptr));
      var v;
      ok, v, x, ptr := ReadBits(buf, x, ptr);
      if !ok { return; }
      PlusPlus(raw, Power4(j), v, ReadDigits(Cursor(x, Tail(buf, ptr)), n - j - 1));
      raw := raw + Power4(j) * v;
    }
  }

  method ReadSymbolLoop(row: seq<int>, n: int, offset: int, buf: seq<byte>, x0: int, ptr0: nat)
    returns (ok: bool, value: int, x: int, ptr: nat)
    requires ValidRow(row, n) && 0 <= x0
    ensures StandsAfter(ReadSymbol(row, n, offset, Cursor(x0, Tail(buf, ptr0))), ok, value, buf, x, ptr)
  {
    var s := Bisect(row, n, x0 % SCALE);
    MulNonNegative(row[s + 1] - row[s], x0 / SCALE);
    value := s + offset;
    ok, x, ptr := Renormalise(buf, (row[s + 1] - row[s]) * (x0 / SCALE) + x0 % SCALE - row[s], ptr0);
    if ok && s == n - 2 {
      var nBypass, raw;
      ok, nBypass, x, ptr := ReadCountLoop(buf, x, ptr);
      if !ok { return; }
      ok, raw, x, ptr := ReadDigitsLoop(buf, x, ptr, nBypass);
      if !ok { return; }
      value := raw / 2;
      if raw % 2 == 1 {
        value := -value - 1;
      } else {
        value := value + (n - 2);
      }
      value := value + offset;
    }
  }

  function Prepended(vs: seq<int>, r: Slice): Slice {
    match r
    case Broken => Broken
    case Whole(ws, c) => Whole(vs + ws, c)
  }

  lemma PrependedOnce(vs: seq<int>, ks: seq<int>, t: Table, before: Cursor, v: int, after: Cursor)
    requires ks != [] && ValidTable(t) && ValidIndexes(ks, t) && 0 <= before.x && 0 <= after.x
    requires ReadIndexed(ks[0], t, before) == Got(v, after)
    ensures Prepended(vs, ReadSlice(ks, t, before)) == Prepended(vs + [v], ReadSlice(ks[1..], t, after))
  {
    var r := ReadSlice(ks[1..], t, after);
    if r.Whole? {
      assert vs + ([v] + r.values) == (vs + [v]) + r.values;
    }
  }

  lemma SlotFilled(indexes: seq<int>, out: seq<int>, lo: nat, i: nat, hi: nat, value: int)
    requires lo <= i < hi <= |indexes| == |out|
    ensures indexes[i..hi] != [] && indexes[i..hi][0] == indexes[i]
    ensures indexes[i..hi][1..] == indexes[i + 1..hi]
    ensures out[i := value][lo..i + 1] == out[lo..i] + [value]
    ensures out[i := value][..lo] == out[..lo] && out[i := value][hi..] == out[hi..]
  {
  }

  /** The loop over one part of a call: fills out[lo..hi] and moves the part's state and pointer. */
  method ReadSliceLoop(indexes: seq<int>, lo: nat, hi: nat, t: Table, buf: seq<byte>, x0: int, ptr0: nat, out0: seq<int>)
    returns (ok: bool, out: seq<int>, x: int, ptr: nat)
    requires lo <= hi <= |indexes| == |out0| && ValidTable(t) && ValidIndexes(indexes, t) && 0 <= x0
    ensures !ok ==> ReadSlice(indexes[lo..hi], t, Cursor(x0, Tail(buf, ptr0))) == Broken
    ensures ok ==> |out| == |out0| && out[..lo] == out0[..lo] && out[hi..] == out0[hi..]
    ensures ok ==>
      ReadSlice(indexes[lo..hi], t, Cursor(x0, Tail(buf, ptr0))) == Whole(out[lo..hi], Cursor(x, Tail(buf, ptr)))
  {
    ghost var want := ReadSlice(indexes[lo..hi], t, Cursor(x0, Tail(buf, ptr0)));
    ok, out, x, ptr := true, out0, x0, ptr0;
    for i := lo to hi
      invariant ok && 0 <= x && |out| == |out0| && out[..lo] == out0[..lo] && out[hi..] == out0[hi..]
      invariant want == Prepended(out[lo..i], ReadSlice(indexes[i..hi], t, Cursor(x, Tail(buf, ptr))))
    {
      var k := indexes[i];
      ghost var here := Cursor(x, Tail(buf, ptr));
      var value := 0;
      if 0 <= k {
        ok, value, x, ptr := ReadSymbolLoop(t.cdfs[k], t.lens[k], t.offsets[k], buf, x, ptr);
        if !ok { return; }
      }
      PrependedOnce(out[lo..i], indexes[i..hi], t, here, value, Cursor(x, Tail(buf, ptr)));
      SlotFilled(indexes, out, lo, i, hi, value);
      out := out[i := value];
    }
  }
}
