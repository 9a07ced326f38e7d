/**
 * The whole coder: several calls, each split over several sub-streams whose
 * states live on from call to call.
 */
module RansCodec {
  import opened Prelude
  import opened RansState
  import opened RansSymbols
  import opened RansContainer

  datatype Call = Call(symbols: seq<int>, indexes: seq<int>, group: int)
  datatype IndexCall = IndexCall(indexes: seq<int>, group: int)

  predicate ValidIndexCall(c: IndexCall, tables: map<int, Table>) {
    c.group in tables && ValidTable(tables[c.group]) && ValidIndexes(c.indexes, tables[c.group])
  }

  predicate ValidCall(c: Call, tables: map<int, Table>) {
    |c.symbols| == |c.indexes| && ValidIndexCall(IndexCall(c.indexes, c.group), tables)
  }

  predicate ValidCalls(calls: seq<Call>, tables: map<int, Table>) {
    forall i :: 0 <= i < |calls| ==> ValidCall(calls[i], tables)
  }

  predicate ValidIndexCalls(calls: seq<IndexCall>, tables: map<int, Table>) {
    forall i :: 0 <= i < |calls| ==> ValidIndexCall(calls[i], tables)
  }

  // ----- how a call is split

  /** Part p of n starts here; parts are equal but the last, which takes what is left. */
  function Cutpoint(total: nat, n: nat, p: nat): (r: nat)
    requires p <= n && 0 < n
    ensures r <= total
  {
    CutpointInside(total, n, p);
    if p == n then total else p * (total / n)
  }

  lemma CutpointInside(total: nat, n: nat, p: nat)
    requires p <= n && 0 < n
    ensures 0 <= p * (total / n) <= total
  {
    var each := total / n;
    MulNonNegative(p, each);
    MulNonNegative(n - p, each);
    assert n * each + total % n == total;
    assert n * each == p * each + (n - p) * each;
  }

  lemma CutpointsAscend(total: nat, n: nat, p: nat)
    requires p < n
    ensures Cutpoint(total, n, p) <= Cutpoint(total, n, p + 1)
  {
    CutpointInside(total, n, p + 1);
    assert (p + 1) * (total / n) == p * (total / n) + total / n;
  }

  function Part<T>(s: seq<T>, n: nat, p: nat): (r: seq<T>)
    requires p < n
    ensures forall i :: 0 <= i < |r| ==> r[i] in s
  {
    CutpointsAscend(|s|, n, p);
    s[Cutpoint(|s|, n, p)..Cutpoint(|s|, n, p + 1)]
  }

  // ----- ref_encode

  lemma PartsValid(symbols: seq<int>, indexes: seq<int>, t: Table, n: nat, p: nat)
    requires |symbols| == |indexes| && ValidIndexes(indexes, t) && p < n
    ensures |Part(symbols, n, p)| == |Part(indexes, n, p)| && ValidIndexes(Part(indexes, n, p), t)
  {}

  function CallEntries(c: Call, tables: map<int, Table>, n: nat, p: nat): seq<Entry>
    requires ValidCall(c, tables) && p < n
  {
    PartsValid(c.symbols, c.indexes, tables[c.group], n, p);
    SliceEntries(Part(c.symbols, n, p), Part(c.indexes, n, p), tables[c.group])
  }

  /** All entries of sub-stream p, over all calls. */
  function PartEntries(calls: seq<Call>, tables: map<int, Table>, n: nat, p: nat): seq<Entry>
    requires ValidCalls(calls, tables) && p < n
  {
    if calls == [] then []
    else CallEntries(calls[0], tables, n, p) + PartEntries(calls[1..], tables, n, p)
  }

  function Substreams(calls: seq<Call>, tables: map<int, Table>, n: nat): (parts: seq<seq<byte>>)
    requires ValidCalls(calls, tables)
    ensures |parts| == n
  {
    seq(n, p requires 0 <= p < n => Flushed(PartEntries(calls, tables, n, p)))
  }

  /** None stands for the exceptions: no part or more than 16, or a stored size of 2^32 or more. */
  function Encode(calls: seq<Call>, tables: map<int, Table>, n: nat): (r: Option<seq<byte>>)
    requires ValidCalls(calls, tables)
    ensures r.Some? <==> Shippable(Substreams(calls, tables, n))
  {
    Container(Substreams(calls, tables, n))
  }

  // ----- ref_decode

  datatype Run = Stuck | Ran(results: seq<seq<int>>, cursors: seq<Cursor>)

  predicate Usable(cs: seq<Cursor>) {
    forall p :: 0 <= p < |cs| ==> 0 <= cs[p].x
  }

  function Start(part: seq<byte>): (c: Cursor)
    ensures 0 <= c.x
  {
    Cursor(FromLe(PySlice(part, 0, 4)), Tail(part, 4))
  }

  function Starts(parts: seq<seq<byte>>): (cs: seq<Cursor>)
    ensures |cs| == |parts| && Usable(cs)
  {
    seq(|parts|, p requires 0 <= p < |parts| => Start(parts[p]))
  }

  function ReadPart(c: IndexCall, tables: map<int, Table>, n: nat, p: nat, at: Cursor): (r: Slice)
    requires ValidIndexCall(c, tables) && p < n && 0 <= at.x
    ensures r.Whole? ==> 0 <= r.next.x
  {
    PartsValid(c.indexes, c.indexes, tables[c.group], n, p);
    ReadSlice(Part(c.indexes, n, p), tables[c.group], at)
  }

  datatype CallRun = CallStuck | CallRan(values: seq<int>, cursors: seq<Cursor>)

  /** The parts of one call from p on. */
  function DecodeParts(c: IndexCall, tables: map<int, Table>, n: nat, p: nat, cs: seq<Cursor>): (r: CallRun)
    requires ValidIndexCall(c, tables) && p <= n <= |cs| && Usable(cs)
    ensures r.CallRan? ==> |r.cursors| == |cs| && Usable(r.cursors)
    decreases n - p
  {
    if p == n then CallRan([], cs)
    else
      match ReadPart(c, tables, n, p, cs[p])
      case Broken => CallStuck
      case Whole(values, next) =>
        match DecodeParts(c, tables, n, p + 1, cs[p := next])
        case CallStuck => CallStuck
        case CallRan(more, cs') => CallRan(values + more, cs')
  }

  function DecodeCalls(calls: seq<IndexCall>, tables: map<int, Table>, n: nat, cs: seq<Cursor>): (r: Run)
    requires ValidIndexCalls(calls, tables) && n <= |cs| && Usable(cs)
  {
    if calls == [] then Ran([], cs)
    else
      match DecodeParts(calls[0], tables, n, 0, cs)
      case CallStuck => Stuck
      case CallRan(values, cs') =>
        match DecodeCalls(calls[1..], tables, n, cs')
        case Stuck => Stuck
        case Ran(results, cs'') => Ran([values] + results, cs'')
  }

  /** Without calls no sub-stream is looked at; otherwise there must be n of them, and n must not be 0. */
  function Decode(stream: seq<byte>, calls: seq<IndexCall>, tables: map<int, Table>, n: nat): Run
    requires ValidIndexCalls(calls, tables)
  {
    match Parsed(stream)
    case None => Stuck
    case Some(parts) =>
      if calls != [] && (n == 0 || |parts| < n) then Stuck
      else DecodeCalls(calls, tables, Min(n, |parts|), Starts(parts))
  }

  function IndexesOf(calls: seq<Call>): (r: seq<IndexCall>)
    ensures |r| == |calls|
  {
    seq(|calls|, i requires 0 <= i < |calls| => IndexCall(calls[i].indexes, calls[i].group))
  }

  /** What decoding must give: the symbol where its index is not negative, 0 elsewhere. */
  function KeptOf(calls: seq<Call>): (r: seq<seq<int>>)
    requires forall i :: 0 <= i < |calls| ==> |calls[i].symbols| == |calls[i].indexes|
    ensures |r| == |calls|
  {
    seq(|calls|, i requires 0 <= i < |calls| => Kept(calls[i].symbols, calls[i].indexes))
  }

  // ----- the round trip

  /** Every sub-stream stands where exactly the entries of the remaining calls are still to be read. */
  predicate InStep(calls: seq<Call>, tables: map<int, Table>, n: nat, cs: seq<Cursor>)
    requires ValidCalls(calls, tables)
  {
    |cs| == n && forall p :: 0 <= p < n ==> cs[p] == Encoded(PartEntries(calls, tables, n, p))
  }

  lemma InStepUsable(calls: seq<Call>, tables: map<int, Table>, n: nat, cs: seq<Cursor>)
    requires ValidCalls(calls, tables) && InStep(calls, tables, n, cs)
    ensures Usable(cs)
  {}

  /** Within a call: parts below p are already past it, the others still before it. */
  predicate MidCall(calls: seq<Call>, tables: map<int, Table>, n: nat, p: nat, cs: seq<Cursor>)
    requires calls != [] && ValidCalls(calls, tables)
  {
    && |cs| == n
    && forall q :: 0 <= q < n ==>
      cs[q] == Encoded(PartEntries(if q < p then calls[1..] else calls, tables, n, q))
  }

  lemma PartReadBack(c: Call, later: seq<Call>, tables: map<int, Table>, n: nat, p: nat)
    requires ValidCall(c, tables) && ValidCalls(later, tables) && p < n
    ensures
      ReadPart(IndexCall(c.indexes, c.group), tables, n, p, Encoded(PartEntries([c] + later, tables, n, p)))
      == Whole(Part(Kept(c.symbols, c.indexes), n, p), Encoded(PartEntries(later, tables, n, p)))
  {
    var after := PartEntries(later, tables, n, p);
    assert ([c] + later)[1..] == later;
    PushAllAppend(CallEntries(c, tables, n, p), after, Cursor(LOW, []));
    PartsValid(c.symbols, c.indexes, tables[c.group], n, p);
    SliceReadBack(Part(c.symbols, n, p), Part(c.indexes, n, p), tables[c.group], Encoded(after));
    KeptPart(c.symbols, c.indexes, n, p);
  }

  lemma KeptPart(symbols: seq<int>, indexes: seq<int>, n: nat, p: nat)
    requires |symbols| == |indexes| && p < n
    ensures |Part(symbols, n, p)| == |Part(indexes, n, p)|
    ensures Kept(Part(symbols, n, p), Part(indexes, n, p)) == Part(Kept(symbols, indexes), n, p)
  {
    CutpointsAscend(|symbols|, n, p);
    KeptBetween(symbols, indexes, Cutpoint(|symbols|, n, p), Cutpoint(|symbols|, n, p + 1));
  }

  lemma KeptBetween(symbols: seq<int>, indexes: seq<int>, a: nat, b: nat)
    requires a <= b <= |symbols| == |indexes|
    ensures Kept(symbols[a..b], indexes[a..b]) == Kept(symbols, indexes)[a..b]
  {}

  lemma PartThenRest<T>(s: seq<T>, n: nat, p: nat)
    requires p < n
    ensures Part(s, n, p) + s[Cutpoint(|s|, n, p + 1)..] == s[Cutpoint(|s|, n, p)..]
  {
    CutpointsAscend(|s|, n, p);
  }

  lemma {:induction false} PartsReadBack(calls: seq<Call>, tables: map<int, Table>, n: nat, p: nat, cs: seq<Cursor>)
    requires calls != [] && ValidCalls(calls, tables) && p <= n && 0 < n
    requires MidCall(calls, tables, n, p, cs)
    ensures Usable(cs)
    ensures
      var c := calls[0];
      var kept := Kept(c.symbols, c.indexes);
      var r := DecodeParts(IndexCall(c.indexes, c.group), tables, n, p, cs);
      && r.CallRan? && r.values == kept[Cutpoint(|kept|, n, p)..]
      && InStep(calls[1..], tables, n, r.cursors)
    decreases n - p
  {
    if p < n {
      var c := calls[0];
      var kept := Kept(c.symbols, c.indexes);
      var next := Encoded(PartEntries(calls[1..], tables, n, p));
      MidCallNext(calls, calls[1..], tables, n, p, cs, next);
      PartsReadBack(calls, tables, n, p + 1, cs[p := next]);
      DecodePartsFirst(IndexCall(c.indexes, c.group), tables, n, p, cs, Part(kept, n, p), next);
      PartThenRest(kept, n, p);
    } else {
      MidCallDone(calls, tables, n, cs);
    }
  }

  lemma MidCallNext(calls: seq<Call>, later: seq<Call>, tables: map<int, Table>, n: nat, p: nat, cs: seq<Cursor>, next: Cursor)
    requires calls != [] && ValidCalls(calls, tables) && later == calls[1..] && p < n && MidCall(calls, tables, n, p, cs)
    requires ValidCalls(later, tables) && next == Encoded(PartEntries(later, tables, n, p))
    ensures MidCall(calls, tables, n, p + 1, cs[p := next])
    ensures
      var c := calls[0];
      ReadPart(IndexCall(c.indexes, c.group), tables, n, p, cs[p]) == Whole(Part(Kept(c.symbols, c.indexes), n, p), next)
  {
    assert calls == [calls[0]] + later;
    PartReadBack(calls[0], later, tables, n, p);
  }

  lemma MidCallDone(calls: seq<Call>, tables: map<int, Table>, n: nat, cs: seq<Cursor>)
    requires calls != [] && ValidCalls(calls, tables) && 0 < n && MidCall(calls, tables, n, n, cs)
    ensures Usable(cs) && ValidCalls(calls[1..], tables) && InStep(calls[1..], tables, n, cs)
  {}

  lemma DecodePartsFirst(c: IndexCall, tables: map<int, Table>, n: nat, p: nat, cs: seq<Cursor>, values: seq<int>, next: Cursor)
    requires ValidIndexCall(c, tables) && p < n <= |cs| && Usable(cs) && 0 <= next.x
    requires ReadPart(c, tables, n, p, cs[p]) == Whole(values, next)
    ensures DecodeParts(c, tables, n, p, cs) == PrependedValues(values, DecodeParts(c, tables, n, p + 1, cs[p := next]))
  {}

  lemma CallReadBack(c: Call, later: seq<Call>, tables: map<int, Table>, n: nat, cs: seq<Cursor>)
    requires ValidCall(c, tables) && ValidCalls([c] + later, tables) && ValidCalls(later, tables) && 0 < n
    requires InStep([c] + later, tables, n, cs)
    ensures Usable(cs)
    ensures
      var r := DecodeParts(IndexCall(c.indexes, c.group), tables, n, 0, cs);
      r.CallRan? && r.values == Kept(c.symbols, c.indexes) && InStep(later, tables, n, r.cursors)
  {
    assert ([c] + later)[1..] == later;
    PartsReadBack([c] + later, tables, n, 0, cs);
    assert Cutpoint(|c.symbols|, n, 0) == 0;
  }

  lemma FirstCall(calls: seq<Call>)
    requires calls != []
    requires forall i :: 0 <= i < |calls| ==> |calls[i].symbols| == |calls[i].indexes|
    ensures IndexesOf(calls) == [IndexCall(calls[0].indexes, calls[0].group)] + IndexesOf(calls[1..])
    ensures KeptOf(calls) == [Kept(calls[0].symbols, calls[0].indexes)] + KeptOf(calls[1..])
  {}

  lemma ValidIndexesOf(calls: seq<Call>, tables: map<int, Table>)
    requires ValidCalls(calls, tables)
    ensures ValidIndexCalls(IndexesOf(calls), tables)
  {}

  lemma {:induction false} CallsReadBack(calls: seq<Call>, tables: map<int, Table>, n: nat, cs: seq<Cursor>)
    requires ValidCalls(calls, tables) && 0 < n && InStep(calls, tables, n, cs)
    ensures Usable(cs) && ValidIndexCalls(IndexesOf(calls), tables)
    ensures
      var r := DecodeCalls(IndexesOf(calls), tables, n, cs);
      r.Ran? && r.results == KeptOf(calls) && InStep([], tables, n, r.cursors)
  {
    ValidIndexesOf(calls, tables);
    InStepUsable(calls, tables, n, cs);
    if calls != [] {
      var c := calls[0];
      assert calls == [c] + calls[1..];
      CallReadBack(c, calls[1..], tables, n, cs);
      var r := DecodeParts(IndexCall(c.indexes, c.group), tables, n, 0, cs);
      CallsReadBack(calls[1..], tables, n, r.cursors);
      FirstCall(calls);
      assert IndexesOf(calls)[1..] == IndexesOf(calls[1..]);
    }
  }

  /** A flushed sub-stream is opened in the state, and before the bytes, that flushing left. */
  lemma StartOfFlushed(entries: seq<Entry>)
    ensures Start(Flushed(entries)) == Encoded(entries)
  {
    var c := Encoded(entries);
    assert PySlice(Flushed(entries), 0, 4) == Le32(c.x);
    assert Tail(Flushed(entries), 4) == c.rest;
    Le32RoundTrip(c.x);
  }

  /**
   * Whatever was encoded is decoded: every call gives back its symbols where its
   * indexes are not negative and 0 elsewhere, and every sub-stream ends in the
   * initial state with no byte left over.
   */
  lemma RoundTrip(calls: seq<Call>, tables: map<int, Table>, n: nat)
    requires ValidCalls(calls, tables)
    requires Encode(calls, tables, n).Some?
    ensures ValidIndexCalls(IndexesOf(calls), tables)
    ensures Decode(Encode(calls, tables, n).value, IndexesOf(calls), tables, n)
         == Ran(KeptOf(calls), seq(n, _ => Cursor(0x80_0000, [])))
  {
    var parts := Substreams(calls, tables, n);
    ContainerReadBack(parts);
    forall p | 0 <= p < n
      ensures Starts(parts)[p] == Encoded(PartEntries(calls, tables, n, p))
    {
      StartOfFlushed(PartEntries(calls, tables, n, p));
    }
    CallsReadBack(calls, tables, n, Starts(parts));
    var cs := DecodeCalls(IndexesOf(calls), tables, n, Starts(parts)).cursors;
    assert cs == seq(n, _ => Cursor(LOW, []));
  }

  // ----- which symbols go to which sub-stream

  /** A call's symbols and indexes, cut into one piece for each sub-stream. */
  datatype Pieces = Pieces(symbols: seq<seq<int>>, indexes: seq<seq<int>>)

  /** All pieces of an n-th of the call, rounded down; the last takes what is left. */
  ghost predicate Cuts<T>(s: seq<T>, n: nat, pieces: seq<seq<T>>) {
    && 0 < n && |pieces| == n && Flatten(pieces) == s
    && forall p :: 0 <= p < n - 1 ==> |pieces[p]| == |s| / n
  }

  ghost predicate CutsCall(c: Call, n: nat, cut: Pieces) {
    Cuts(c.symbols, n, cut.symbols) && Cuts(c.indexes, n, cut.indexes)
  }

  /** A piece stands where as many full pieces before it end. */
  lemma {:induction false} PieceInPlace<T>(pieces: seq<seq<T>>, each: nat, p: nat)
    requires p < |pieces| && forall q :: 0 <= q < |pieces| - 1 ==> |pieces[q]| == each
    ensures 0 <= p * each <= p * each + |pieces[p]| <= |Flatten(pieces)|
    ensures pieces[p] == Flatten(pieces)[p * each..p * each + |pieces[p]|]
    ensures p == |pieces| - 1 ==> p * each + |pieces[p]| == |Flatten(pieces)|
  {
    if p != 0 {
      PieceInPlace(pieces[1..], each, p - 1);
      TimesNext(p, each);
      SliceAfter(pieces[0], Flatten(pieces[1..]), (p - 1) * each, (p - 1) * each + |pieces[p]|);
    } else if |pieces| == 1 {
      assert pieces[1..] == [];
    }
  }

  lemma TimesNext(p: nat, each: nat)
    requires 0 < p
    ensures p * each == (p - 1) * each + each && 0 <= (p - 1) * each
  {
    MulNonNegative(p - 1, each);
  }

  lemma SliceAfter<T>(front: seq<T>, back: seq<T>, lo: nat, hi: nat)
    requires lo <= hi <= |back|
    ensures (front + back)[|front| + lo..|front| + hi] == back[lo..hi]
  {}

  lemma PieceIsPart<T>(s: seq<T>, n: nat, pieces: seq<seq<T>>, p: nat)
    requires Cuts(s, n, pieces) && p < n
    ensures pieces[p] == Part(s, n, p)
  {
    PieceInPlace(pieces, |s| / n, p);
    CutpointsAscend(|s|, n, p);
    TimesNext(p + 1, |s| / n);
  }

  /** Every call can be cut so, and in one way only. */
  lemma PiecesExist<T>(s: seq<T>, n: nat) returns (pieces: seq<seq<T>>)
    requires 0 < n
    ensures Cuts(s, n, pieces)
    ensures forall other :: Cuts(s, n, other) ==> other == pieces
  {
    pieces := seq(n, p requires 0 <= p < n => Part(s, n, p));
    FlattenParts(s, n, pieces, n);
    assert pieces[..n] == pieces && s[..|s|] == s;
    forall p | 0 <= p < n - 1 ensures |pieces[p]| == |s| / n {
      TimesNext(p + 1, |s| / n);
      CutpointInside(|s|, n, p + 1);
    }
    forall other | Cuts(s, n, other) ensures other == pieces {
      forall p | 0 <= p < n ensures other[p] == pieces[p] {
        PieceIsPart(s, n, other, p);
      }
    }
  }

  lemma {:induction false} FlattenParts<T>(s: seq<T>, n: nat, pieces: seq<seq<T>>, p: nat)
    requires 0 < n && p <= n == |pieces| && forall q :: 0 <= q < n ==> pieces[q] == Part(s, n, q)
    ensures Flatten(pieces[..p]) == s[..Cutpoint(|s|, n, p)]
  {
    if p != 0 {
      FlattenParts(s, n, pieces, p - 1);
      CutpointsAscend(|s|, n, p - 1);
      assert pieces[..p] == pieces[..p - 1] + [pieces[p - 1]];
      FlattenAppend(pieces[..p - 1], [pieces[p - 1]]);
      assert Flatten([pieces[p - 1]]) == pieces[p - 1] + [];
    }
  }

  predicate PieceFits(c: Call, cut: Pieces, tables: map<int, Table>, p: nat) {
    && p < |cut.symbols| && p < |cut.indexes| && |cut.symbols[p]| == |cut.indexes[p]|
    && c.group in tables && ValidTable(tables[c.group]) && ValidIndexes(cut.indexes[p], tables[c.group])
  }

  predicate PiecesFit(calls: seq<Call>, cuts: seq<Pieces>, tables: map<int, Table>, p: nat) {
    |cuts| == |calls| && forall i :: 0 <= i < |calls| ==> PieceFits(calls[i], cuts[i], tables, p)
  }

  /** The entries of piece p of every call, call after call. */
  function PieceEntries(calls: seq<Call>, cuts: seq<Pieces>, tables: map<int, Table>, p: nat): seq<Entry>
    requires PiecesFit(calls, cuts, tables, p)
  {
    if calls == [] then []
    else
      assert PieceFits(calls[0], cuts[0], tables, p);
      SliceEntries(cuts[0].symbols[p], cuts[0].indexes[p], tables[calls[0].group])
      + PieceEntries(calls[1..], cuts[1..], tables, p)
  }

  ghost predicate CutsCalls(calls: seq<Call>, n: nat, cuts: seq<Pieces>) {
    |cuts| == |calls| && forall i :: 0 <= i < |calls| ==> CutsCall(calls[i], n, cuts[i])
  }

  lemma CutFits(c: Call, n: nat, cut: Pieces, tables: map<int, Table>, p: nat)
    requires ValidCall(c, tables) && CutsCall(c, n, cut) && p < n
    ensures PieceFits(c, cut, tables, p)
    ensures CallEntries(c, tables, n, p) == SliceEntries(cut.symbols[p], cut.indexes[p], tables[c.group])
  {
    PieceIsPart(c.symbols, n, cut.symbols, p);
    PieceIsPart(c.indexes, n, cut.indexes, p);
    PartsValid(c.symbols, c.indexes, tables[c.group], n, p);
  }

  lemma {:induction false} PartEntriesArePieces(calls: seq<Call>, cuts: seq<Pieces>, tables: map<int, Table>, n: nat, p: nat)
    requires ValidCalls(calls, tables) && CutsCalls(calls, n, cuts) && p < n
    ensures PiecesFit(calls, cuts, tables, p)
    ensures PartEntries(calls, tables, n, p) == PieceEntries(calls, cuts, tables, p)
  {
    if calls != [] {
      CutFits(calls[0], n, cuts[0], tables, p);
      assert CutsCalls(calls[1..], n, cuts[1..]);
      PartEntriesArePieces(calls[1..], cuts[1..], tables, n, p);
      assert forall i :: 1 <= i < |calls| ==> calls[i] == calls[1..][i - 1] && cuts[i] == cuts[1..][i - 1];
    }
  }

  /**
   * The stream, taken apart, has n parts: part p is the flushed entries of the p-th pieces of all calls,
   * where the pieces of a call are its symbols in order, all an n-th of them but the last.
   */
  lemma StreamCarriesPieces(calls: seq<Call>, cuts: seq<Pieces>, tables: map<int, Table>, n: nat)
    returns (parts: seq<seq<byte>>)
    requires ValidCalls(calls, tables) && Encode(calls, tables, n).Some? && CutsCalls(calls, n, cuts)
    ensures Parsed(Encode(calls, tables, n).value) == Some(parts) && |parts| == n
    ensures forall p :: 0 <= p < n ==> PiecesFit(calls, cuts, tables, p) && parts[p] == Flushed(PieceEntries(calls, cuts, tables, p))
  {
    parts := Substreams(calls, tables, n);
    ContainerReadBack(parts);
    forall p | 0 <= p < n
      ensures PiecesFit(calls, cuts, tables, p) && parts[p] == Flushed(PieceEntries(calls, cuts, tables, p))
    {
      PartEntriesArePieces(calls, cuts, tables, n, p);
    }
  }

  /** Between 1 and 16 parts, none of more than 2^30 entries, can always be shipped. */
  lemma EncodeSucceeds(calls: seq<Call>, tables: map<int, Table>, n: nat)
    requires ValidCalls(calls, tables) && 1 <= n <= 16
    requires forall p :: 0 <= p < n ==> |PartEntries(calls, tables, n, p)| <= 0x4000_0000
    ensures Encode(calls, tables, n).Some?
  {
    var parts := Substreams(calls, tables, n);
    forall p | 0 <= p < n
      ensures |parts[p]| < 0x1_0000_0000
    {
      FlushedSize(PartEntries(calls, tables, n, p));
    }
  }

  // ----- ref_encode and ref_decode, as the loops they are

  method Bounds(total: nat, n: nat, p: nat) returns (lo: nat, hi: nat)
    requires p < n
    ensures lo == Cutpoint(total, n, p) && hi == Cutpoint(total, n, p + 1) && lo <= hi <= total
  {
    var each := total / n;
    CutpointInside(total, n, p);
    CutpointsAscend(total, n, p);
    lo := p * each;
    hi := if p == n - 1 then total else lo + each;
    assert (p + 1) * each == p * each + each;
  }

  method EncodeCall(entries0: seq<seq<Entry>>, c: Call, tables: map<int, Table>, n: nat)
    returns (entries: seq<seq<Entry>>)
    requires ValidCall(c, tables) && |entries0| == n && 0 < n
    ensures |entries| == n
    ensures forall p :: 0 <= p < n ==> entries[p] == entries0[p] + CallEntries(c, tables, n, p)
  {
    entries := entries0;
    var total := |c.symbols|;
    for p := 0 to n
      invariant |entries| == n
      invariant forall q :: 0 <= q < p ==> entries[q] == entries0[q] + CallEntries(c, tables, n, q)
      invariant forall q :: p <= q < n ==> entries[q] == entries0[q]
    {
      var lo, hi := Bounds(total, n, p);
      PartsValid(c.symbols, c.indexes, tables[c.group], n, p);
      var pushed := RefPushSymbols(entries[p], c.symbols[lo..hi], c.indexes[lo..hi], tables[c.group]);
      entries := entries[p := pushed];
    }
  }

  method FlushAll(entries: seq<seq<Entry>>) returns (parts: seq<seq<byte>>)
    ensures |parts| == |entries| && forall p :: 0 <= p < |entries| ==> parts[p] == Flushed(entries[p])
  {
    parts := [];
    for p := 0 to |entries|
      invariant |parts| == p && forall q :: 0 <= q < p ==> parts[q] == Flushed(entries[q])
    {
      var part := RefFlush(entries[p]);
      parts := parts + [part];
    }
  }

  /** The entries of the first i calls, which those of the remaining calls complete. */
  ghost predicate Collected(entries: seq<seq<Entry>>, calls: seq<Call>, i: nat, tables: map<int, Table>, n: nat)
    requires ValidCalls(calls, tables) && i <= |calls| && 0 < n
  {
    && |entries| == n
    && forall p :: 0 <= p < n ==> entries[p] + PartEntries(calls[i..], tables, n, p) == PartEntries(calls, tables, n, p)
  }

  lemma CollectedStep(was: seq<seq<Entry>>, entries: seq<seq<Entry>>, calls: seq<Call>, i: nat, tables: map<int, Table>, n: nat)
    requires ValidCalls(calls, tables) && i < |calls| && 0 < n && |entries| == n && Collected(was, calls, i, tables, n)
    requires forall p :: 0 <= p < n ==> entries[p] == was[p] + CallEntries(calls[i], tables, n, p)
    ensures Collected(entries, calls, i + 1, tables, n)
  {
    forall p | 0 <= p < n
      ensures entries[p] + PartEntries(calls[i + 1..], tables, n, p) == PartEntries(calls, tables, n, p)
    {
      PartEntriesStep(was[p], calls, i, tables, n, p);
    }
  }

  lemma CollectedAll(entries: seq<seq<Entry>>, calls: seq<Call>, tables: map<int, Table>, n: nat)
    requires ValidCalls(calls, tables) && 0 < n && Collected(entries, calls, |calls|, tables, n)
    ensures forall p :: 0 <= p < n ==> entries[p] == PartEntries(calls, tables, n, p)
  {
    forall p | 0 <= p < n
      ensures entries[p] == PartEntries(calls, tables, n, p)
    {
      assert entries[p] + [] == entries[p];
    }
  }

  method CollectEntries(calls: seq<Call>, tables: map<int, Table>, n: nat) returns (entries: seq<seq<Entry>>)
    requires ValidCalls(calls, tables) && 0 < n
    ensures |entries| == n && forall p :: 0 <= p < n ==> entries[p] == PartEntries(calls, tables, n, p)
  {
    entries := seq(n, _ => []);
    assert calls[0..] == calls;
    for i := 0 to |calls|
      invariant Collected(entries, calls, i, tables, n)
    {
      ghost var was := entries;
      entries := EncodeCall(entries, calls[i], tables, n);
      CollectedStep(was, entries, calls, i, tables, n);
    }
    CollectedAll(entries, calls, tables, n);
  }

  method RefEncode(calls: seq<Call>, tables: map<int, Table>, n: nat) returns (r: Option<seq<byte>>)
    requires ValidCalls(calls, tables)
    ensures r == Encode(calls, tables, n)
  {
    if n == 0 {
      return None;
    }
    var entries := CollectEntries(calls, tables, n);
    var parts := FlushAll(entries);
    assert parts == Substreams(calls, tables, n);
    r := RefContainer(parts);
  }

  lemma PartEntriesStep(done: seq<Entry>, calls: seq<Call>, i: nat, tables: map<int, Table>, n: nat, p: nat)
    requires ValidCalls(calls, tables) && i < |calls| && p < n
    ensures done + PartEntries(calls[i..], tables, n, p)
      == (done + CallEntries(calls[i], tables, n, p)) + PartEntries(calls[i + 1..], tables, n, p)
  {
    assert calls[i..][1..] == calls[i + 1..];
    assert calls[i..][0] == calls[i];
  }

  /** Where state and pointer of every part stand. */
  function Cursors(parts: seq<seq<byte>>, states: seq<int>, ptrs: seq<nat>): (cs: seq<Cursor>)
    requires |parts| == |states| == |ptrs|
    ensures |cs| == |parts|
  {
    seq(|parts|, p requires 0 <= p < |parts| => Cursor(states[p], Tail(parts[p], ptrs[p])))
  }

  lemma CursorsMove(parts: seq<seq<byte>>, states: seq<int>, ptrs: seq<nat>, p: nat, x: int, ptr: nat)
    requires p < |parts| == |states| == |ptrs|
    ensures Cursors(parts, states[p := x], ptrs[p := ptr])
         == Cursors(parts, states, ptrs)[p := Cursor(x, Tail(parts[p], ptr))]
  {}

  function PrependedValues(values: seq<int>, r: CallRun): CallRun {
    match r
    case CallStuck => CallStuck
    case CallRan(more, cs) => CallRan(values + more, cs)
  }

  /** What decoding the parts from p on still adds to the values so far is the result wanted. */
  ghost predicate Underway(want: CallRun, c: IndexCall, tables: map<int, Table>, n: nat, p: nat, done: seq<int>, cs: seq<Cursor>)
    requires ValidIndexCall(c, tables) && p <= n
  {
    n <= |cs| && Usable(cs) && want == PrependedValues(done, DecodeParts(c, tables, n, p, cs))
  }

  lemma UnderwayStep(want: CallRun, c: IndexCall, tables: map<int, Table>, n: nat, p: nat, done: seq<int>, cs: seq<Cursor>,
                     values: seq<int>, next: Cursor)
    requires ValidIndexCall(c, tables) && p < n && Underway(want, c, tables, n, p, done, cs)
    requires ReadPart(c, tables, n, p, cs[p]) == Whole(values, next)
    ensures Underway(want, c, tables, n, p + 1, done + values, cs[p := next])
  {
    var r := DecodeParts(c, tables, n, p + 1, cs[p := next]);
    if r.CallRan? {
      ConcatAssoc(done, values, r.values);
    }
  }

  lemma UnderwayStuck(want: CallRun, c: IndexCall, tables: map<int, Table>, n: nat, p: nat, done: seq<int>, cs: seq<Cursor>)
    requires ValidIndexCall(c, tables) && p < n && Underway(want, c, tables, n, p, done, cs)
    ensures ReadPart(c, tables, n, p, cs[p]) == Broken ==> want == CallStuck
  {}

  lemma UnderwayStarts(c: IndexCall, tables: map<int, Table>, n: nat, cs: seq<Cursor>)
    requires ValidIndexCall(c, tables) && n <= |cs| && Usable(cs)
    ensures Underway(DecodeParts(c, tables, n, 0, cs), c, tables, n, 0, [], cs)
  {
    var r := DecodeParts(c, tables, n, 0, cs);
    if r.CallRan? {
      assert [] + r.values == r.values;
    }
  }

  lemma UnderwayEnds(want: CallRun, c: IndexCall, tables: map<int, Table>, n: nat, done: seq<int>, cs: seq<Cursor>)
    requires ValidIndexCall(c, tables) && Underway(want, c, tables, n, n, done, cs)
    ensures want == CallRan(done, cs)
  {
    assert done + [] == done;
  }

  /** One part of a call: its values go where they belong, and the values before them stay. */
  method DecodePart(c: IndexCall, tables: map<int, Table>, n: nat, p: nat, part: seq<byte>, x0: int, ptr0: nat, out0: seq<int>)
    returns (ok: bool, out: seq<int>, x: int, ptr: nat, ghost values: seq<int>)
    requires ValidIndexCall(c, tables) && p < n && 0 <= x0 && |out0| == |c.indexes|
    ensures !ok ==> ReadPart(c, tables, n, p, Cursor(x0, Tail(part, ptr0))) == Broken
    ensures ok ==> ReadPart(c, tables, n, p, Cursor(x0, Tail(part, ptr0))) == Whole(values, Cursor(x, Tail(part, ptr)))
    ensures ok ==> |out| == |out0|
    ensures ok ==> out[..Cutpoint(|out|, n, p + 1)] == out0[..Cutpoint(|out|, n, p)] + values
  {
    var lo, hi := Bounds(|c.indexes|, n, p);
    ReadPartIs(c, tables, n, p, lo, hi, Cursor(x0, Tail(part, ptr0)));
    ok, out, x, ptr := ReadSliceLoop(c.indexes, lo, hi, tables[c.group], part, x0, ptr0, out0);
    values := [];
    if ok {
      values := out[lo..hi];
      assert out[..hi] == out[..lo] + values;
    }
  }

  lemma ReadPartIs(c: IndexCall, tables: map<int, Table>, n: nat, p: nat, lo: nat, hi: nat, at: Cursor)
    requires ValidIndexCall(c, tables) && p < n && 0 <= at.x
    requires lo == Cutpoint(|c.indexes|, n, p) && hi == Cutpoint(|c.indexes|, n, p + 1) && lo <= hi <= |c.indexes|
    ensures ReadPart(c, tables, n, p, at) == ReadSlice(c.indexes[lo..hi], tables[c.group], at)
  {}

  method DecodeCall(c: IndexCall, tables: map<int, Table>, n: nat, parts: seq<seq<byte>>,
                    states0: seq<int>, ptrs0: seq<nat>)
    returns (ok: bool, out: seq<int>, states: seq<int>, ptrs: seq<nat>)
    requires ValidIndexCall(c, tables) && 0 < n <= |parts| == |states0| == |ptrs0|
    requires Usable(Cursors(parts, states0, ptrs0))
    ensures |states| == |ptrs| == |parts|
    ensures !ok ==> DecodeParts(c, tables, n, 0, Cursors(parts, states0, ptrs0)) == CallStuck
    ensures ok ==>
      DecodeParts(c, tables, n, 0, Cursors(parts, states0, ptrs0)) == CallRan(out, Cursors(parts, states, ptrs))
  {
    ghost var want := DecodeParts(c, tables, n, 0, Cursors(parts, states0, ptrs0));
    var total := |c.indexes|;
    ok, out, states, ptrs := true, seq(total, _ => 0), states0, ptrs0;
    UnderwayStarts(c, tables, n, Cursors(parts, states, ptrs));
    for p := 0 to n
      invariant ok && |out| == total && |states| == |ptrs| == |parts|
      invariant Underway(want, c, tables, n, p, out[..Cutpoint(total, n, p)], Cursors(parts, states, ptrs))
    {
      ghost var cs, done := Cursors(parts, states, ptrs), out[..Cutpoint(total, n, p)];
      assert cs[p] == Cursor(states[p], Tail(parts[p], ptrs[p]));
      var x, ptr;
      ghost var values;
      ok, out, x, ptr, values := DecodePart(c, tables, n, p, parts[p], states[p], ptrs[p], out);
      if !ok {
        UnderwayStuck(want, c, tables, n, p, done, cs);
        return;
      }
      UnderwayStep(want, c, tables, n, p, done, cs, values, Cursor(x, Tail(parts[p], ptr)));
      CursorsMove(parts, states, ptrs, p, x, ptr);
      states, ptrs := states[p := x], ptrs[p := ptr];
    }
    UnderwayEnds(want, c, tables, n, out[..Cutpoint(total, n, n)], Cursors(parts, states, ptrs));
    assert out[..total] == out;
  }

  method RefDecode(stream: seq<byte>, calls: seq<IndexCall>, tables: map<int, Table>, n: nat)
    returns (ok: bool, results: seq<seq<int>>)
    requires ValidIndexCalls(calls, tables)
    ensures ok <==> Decode(stream, calls, tables, n).Ran?
    ensures ok ==> results == Decode(stream, calls, tables, n).results
  {
    results := [];
    var parsed := ParseContainer(stream);
    if parsed.None? {
      return false, [];
    }
    var parts := parsed.value;
    var states := seq(|parts|, p requires 0 <= p < |parts| => FromLe(PySlice(parts[p], 0, 4)));
    var ptrs: seq<nat> := seq(|parts|, _ => 4);
    assert Cursors(parts, states, ptrs) == Starts(parts);
    if calls != [] && (n == 0 || |parts| < n) {
      return false, [];
    }
    ghost var k := Min(n, |parts|);
    for i := 0 to |calls|
      invariant |states| == |ptrs| == |parts| && Usable(Cursors(parts, states, ptrs))
      invariant Decode(stream, calls, tables, n)
        == PrependedResults(results, DecodeCalls(calls[i..], tables, k, Cursors(parts, states, ptrs)))
    {
      assert calls[i..][1..] == calls[i + 1..];
      ghost var cs := Cursors(parts, states, ptrs);
      var out;
      ok, out, states, ptrs := DecodeCall(calls[i], tables, n, parts, states, ptrs);
      if !ok { return; }
      PrependedResultsStep(results, calls[i..], tables, k, cs);
      results := results + [out];
    }
    ok := true;
  }

  function PrependedResults(done: seq<seq<int>>, r: Run): Run {
    match r
    case Stuck => Stuck
    case Ran(more, cs) => Ran(done + more, cs)
  }

  lemma PrependedResultsStep(done: seq<seq<int>>, calls: seq<IndexCall>, tables: map<int, Table>, n: nat, cs: seq<Cursor>)
    requires calls != [] && ValidIndexCalls(calls, tables) && n <= |cs| && Usable(cs)
    requires DecodeParts(calls[0], tables, n, 0, cs).CallRan?
    ensures
      var first := DecodeParts(calls[0], tables, n, 0, cs);
      PrependedResults(done, DecodeCalls(calls, tables, n, cs))
      == PrependedResults(done + [first.values], DecodeCalls(calls[1..], tables, n, first.cursors))
  {
    var first := DecodeParts(calls[0], tables, n, 0, cs);
    var r := DecodeCalls(calls[1..], tables, n, first.cursors);
    if r.Ran? {
      ConcatAssoc(done, [first.values], r.results);
    }
  }
}
