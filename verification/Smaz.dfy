/** The SMAZ compressor: greedy dictionary hits, with runs of verbatim bytes between them. */
module Smaz {
  import opened Prelude

  const VERBATIM_SINGLE: byte := 254
  const VERBATIM_RUN: byte := 255

  predicate IsEntry(e: seq<byte>) {
    e != [] && forall i :: 0 <= i < |e| ==> e[i] < 128
  }

  /** Dictionary words are nonempty ASCII. */
  type Entry = e: seq<byte> | IsEntry(e) witness [0]

  type Dict = seq<Entry>

  /** Codes must stay below the two verbatim marks. */
  predicate ValidDict(d: Dict) {
    |d| <= 254
  }

  // ----- the dictionary hit

  predicate Hits(entry: Entry, s: seq<byte>) {
    entry <= s
  }

  /** The longest entry s starts with; the first one of that length. */
  predicate IsBest(d: Dict, s: seq<byte>, c: int) {
    && 0 <= c < |d| && Hits(d[c], s)
    && forall k :: 0 <= k < |d| && Hits(d[k], s) ==>
      |d[k]| <= |d[c]| && (k < c ==> |d[k]| < |d[c]|)
  }

  /** The best of the first n entries, -1 when none hits. */
  function Best(d: Dict, s: seq<byte>, n: nat): (c: int)
    requires n <= |d|
    ensures -1 <= c < n
    ensures c != -1 ==> |d[c]| <= |s| && s[..|d[c]|] == d[c]
  {
    if n == 0 then -1
    else
      var c := Best(d, s, n - 1);
      if Hits(d[n - 1], s) && (c == -1 || |d[c]| < |d[n - 1]|) then n - 1 else c
  }

  /** It is the first of the longest hits; -1 means that no entry hits. */
  lemma {:induction false} BestIsFirstLongest(d: Dict, s: seq<byte>, n: nat)
    requires n <= |d|
    ensures Best(d, s, n) == -1 <==> forall k :: 0 <= k < n ==> !Hits(d[k], s)
    ensures Best(d, s, n) != -1 ==> IsBest(d[..n], s, Best(d, s, n))
  {
    if n != 0 {
      BestIsFirstLongest(d, s, n - 1);
      assert forall k :: 0 <= k < n - 1 ==> d[..n][k] == d[..n - 1][k];
    }
  }

  // ----- compressing and decompressing

  function Flush(v: seq<byte>): seq<byte>
    requires |v| <= 256
  {
    if v == [] then []
    else if |v| == 1 then [VERBATIM_SINGLE, v[0]]
    else [VERBATIM_RUN, |v| - 1] + v
  }

  /** s is still to be read, v is waiting to be flushed. */
  function Compressed(d: Dict, s: seq<byte>, v: seq<byte>): seq<byte>
    requires ValidDict(d) && |v| < 256
    decreases |s|
  {
    if s == [] then Flush(v)
    else
      var c := Best(d, s, |d|);
      if c != -1 then Flush(v) + ([c] + Compressed(d, s[|d[c]|..], []))
      else
        var v' := v + [s[0]];
        if |v'| == 256 then Flush(v') + Compressed(d, s[1..], [])
        else Compressed(d, s[1..], v')
  }

  /** None stands for the FormatException of a truncated stream or an unknown code. */
  function Decompressed(d: Dict, s: seq<byte>): Option<seq<byte>>
    decreases |s|
  {
    if s == [] then Some([])
    else if s[0] == VERBATIM_SINGLE then
      if |s| < 2 then None else Prefixed(s[1..2], Decompressed(d, s[2..]))
    else if s[0] == VERBATIM_RUN then
      if |s| < 2 || |s| < 3 + s[1] as int then None
      else Prefixed(s[2..3 + s[1] as int], Decompressed(d, s[3 + s[1] as int..]))
    else if |d| <= s[0] then None
    else Prefixed(d[s[0]], Decompressed(d, s[1..]))
  }

  // ----- decompressing undoes compressing

  lemma FlushReadBack(d: Dict, v: seq<byte>, more: seq<byte>)
    requires |v| <= 256
    ensures Decompressed(d, Flush(v) + more) == Prefixed(v, Decompressed(d, more))
  {
    var s := Flush(v) + more;
    if v == [] {
      assert s == more;
      PrefixedNothing(Decompressed(d, more));
    } else if |v| == 1 {
      assert s[1..2] == v && s[2..] == more;
    } else {
      assert s[2..3 + s[1] as int] == v && s[3 + s[1] as int..] == more;
    }
  }

  lemma CodeReadBack(d: Dict, c: byte, more: seq<byte>)
    requires ValidDict(d) && c < |d|
    ensures Decompressed(d, [c] + more) == Prefixed(d[c], Decompressed(d, more))
  {
    assert ([c] + more)[1..] == more;
  }

  lemma EndReadBack(d: Dict, v: seq<byte>)
    requires |v| <= 256
    ensures Decompressed(d, Flush(v)) == Some(v)
  {
    FlushReadBack(d, v, []);
    assert Flush(v) + [] == Flush(v) && v + [] == v;
  }

  lemma HitReadBack(d: Dict, v: seq<byte>, c: byte, more: seq<byte>, rest: seq<byte>)
    requires ValidDict(d) && |v| <= 256 && c < |d| && Decompressed(d, more) == Some(rest)
    ensures Decompressed(d, Flush(v) + ([c] + more)) == Some(v + (d[c] + rest))
  {
    CodeReadBack(d, c, more);
    FlushReadBack(d, v, [c] + more);
  }

  lemma CompressedHit(d: Dict, s: seq<byte>, v: seq<byte>, c: int, rest: seq<byte>)
    requires ValidDict(d) && |v| < 256 && s != [] && c == Best(d, s, |d|) && c != -1 && rest == s[|d[c]|..]
    ensures Compressed(d, s, v) == Flush(v) + ([c] + Compressed(d, rest, []))
  {}

  lemma CompressedMiss(d: Dict, s: seq<byte>, v: seq<byte>, v': seq<byte>)
    requires ValidDict(d) && |v| < 256 && s != [] && Best(d, s, |d|) == -1 && v' == v + [s[0]]
    ensures Compressed(d, s, v)
         == if |v'| == 256 then Flush(v') + Compressed(d, s[1..], []) else Compressed(d, s[1..], v')
  {}

  lemma ConcatNothing(v: seq<byte>)
    ensures v + [] == v
  {}

  lemma SplitAfter(front: seq<byte>, s: seq<byte>)
    requires front <= s
    ensures front + s[|front|..] == s && [] + s[|front|..] == s[|front|..]
  {}

  lemma SplitHead(v: seq<byte>, s: seq<byte>)
    requires s != []
    ensures (v + [s[0]]) + s[1..] == v + s && [] + s[1..] == s[1..]
  {}

  lemma {:induction false} ReadBack(d: Dict, s: seq<byte>, v: seq<byte>)
    requires ValidDict(d) && |v| < 256
    ensures Decompressed(d, Compressed(d, s, v)) == Some(v + s)
    decreases |s|
  {
    var c := Best(d, s, |d|);
    if s == [] {
      EndReadBack(d, v);
      ConcatNothing(v);
    } else if c != -1 {
      var rest := s[|d[c]|..];
      CompressedHit(d, s, v, c, rest);
      ReadBack(d, rest, []);
      SplitAfter(d[c], s);
      HitReadBack(d, v, c, Compressed(d, rest, []), rest);
    } else {
      var v', rest := v + [s[0]], s[1..];
      CompressedMiss(d, s, v, v');
      ReadBack(d, rest, if |v'| == 256 then [] else v');
      SplitHead(v, s);
      if |v'| == 256 {
        FlushReadBack(d, v', Compressed(d, rest, []));
      }
    }
  }

  /** Every byte string is given back. */
  lemma RoundTrip(d: Dict, s: seq<byte>)
    requires ValidDict(d)
    ensures Decompressed(d, Compressed(d, s, [])) == Some(s)
  {
    ReadBack(d, s, []);
    assert [] + s == s;
  }

  // ----- which streams can be decompressed

  /** A verbatim byte, a run of 1 to 256 of them, or a dictionary code. */
  datatype Token = Single(b: byte) | Run(bytes: seq<byte>) | Word(code: byte)

  predicate IsToken(d: Dict, t: Token) {
    match t
    case Single(_) => true
    case Run(v) => 1 <= |v| <= 256
    case Word(c) => c < |d|
  }

  predicate AllTokens(d: Dict, ts: seq<Token>) {
    forall i :: 0 <= i < |ts| ==> IsToken(d, ts[i])
  }

  /** How a token is written. */
  function Written(d: Dict, t: Token): seq<byte>
    requires IsToken(d, t)
  {
    match t
    case Single(b) => [VERBATIM_SINGLE, b]
    case Run(v) => [VERBATIM_RUN, |v| - 1] + v
    case Word(c) => [c]
  }

  /** What a token stands for. */
  function Meant(d: Dict, t: Token): seq<byte>
    requires IsToken(d, t)
  {
    match t
    case Single(b) => [b]
    case Run(v) => v
    case Word(c) => d[c]
  }

  function AllWritten(d: Dict, ts: seq<Token>): seq<byte>
    requires AllTokens(d, ts)
  {
    if ts == [] then [] else Written(d, ts[0]) + AllWritten(d, ts[1..])
  }

  function AllMeant(d: Dict, ts: seq<Token>): seq<byte>
    requires AllTokens(d, ts)
  {
    if ts == [] then [] else Meant(d, ts[0]) + AllMeant(d, ts[1..])
  }

  lemma TokenReadBack(d: Dict, t: Token, more: seq<byte>)
    requires ValidDict(d) && IsToken(d, t)
    ensures Decompressed(d, Written(d, t) + more) == Prefixed(Meant(d, t), Decompressed(d, more))
  {
    var s := Written(d, t) + more;
    match t
    case Single(b) =>
      assert s[1..2] == [b] && s[2..] == more;
    case Run(v) =>
      assert s[2..2 + |v|] == v && s[2 + |v|..] == more;
    case Word(c) =>
      assert s[1..] == more;
  }

  lemma {:induction false} TokensReadBack(d: Dict, ts: seq<Token>)
    requires ValidDict(d) && AllTokens(d, ts)
    ensures Decompressed(d, AllWritten(d, ts)) == Some(AllMeant(d, ts))
  {
    if ts != [] {
      TokenReadBack(d, ts[0], AllWritten(d, ts[1..]));
      TokensReadBack(d, ts[1..]);
    }
  }

  /** The token at the front of a stream, and the stream after it. */
  lemma FirstToken(d: Dict, s: seq<byte>) returns (t: Token, more: seq<byte>)
    requires ValidDict(d) && s != [] && Decompressed(d, s).Some?
    ensures IsToken(d, t) && s == Written(d, t) + more && |more| < |s| && Decompressed(d, more).Some?
  {
    if s[0] == VERBATIM_SINGLE {
      t, more := Single(s[1]), s[2..];
    } else if s[0] == VERBATIM_RUN {
      t, more := Run(s[2..3 + s[1] as int]), s[3 + s[1] as int..];
    } else {
      t, more := Word(s[0]), s[1..];
    }
  }

  lemma {:induction false} Tokens(d: Dict, s: seq<byte>) returns (ts: seq<Token>)
    requires ValidDict(d) && Decompressed(d, s).Some?
    ensures AllTokens(d, ts) && AllWritten(d, ts) == s
    decreases |s|
  {
    if s == [] {
      ts := [];
    } else {
      var t, more := FirstToken(d, s);
      var later := Tokens(d, more);
      ts := [t] + later;
      assert ts[1..] == later;
    }
  }

  /** Tokens written as s, and meaning b. */
  ghost predicate Spells(d: Dict, ts: seq<Token>, s: seq<byte>, b: seq<byte>) {
    AllTokens(d, ts) && AllWritten(d, ts) == s && AllMeant(d, ts) == b
  }

  /** Exactly the concatenations of tokens can be decompressed, to what the tokens mean. */
  lemma DecompressedIff(d: Dict, s: seq<byte>, b: seq<byte>)
    requires ValidDict(d)
    ensures Decompressed(d, s) == Some(b) <==> exists ts :: Spells(d, ts, s, b)
  {
    if Decompressed(d, s) == Some(b) {
      var ts := Tokens(d, s);
      TokensReadBack(d, ts);
      assert Spells(d, ts, s, b);
    }
    if ts :| Spells(d, ts, s, b) {
      TokensReadBack(d, ts);
    }
  }

  // ----- which of the many token streams is chosen

  predicate Misses(d: Dict, s: seq<byte>) {
    forall k :: 0 <= k < |d| ==> !Hits(d[k], s)
  }

  /** No entry hits at the first n places. */
  predicate AllMiss(d: Dict, s: seq<byte>, n: nat) {
    n <= |s| && forall i :: 0 <= i < n ==> Misses(d, s[i..])
  }

  /** A code wherever an entry hits, the first of the longest; between codes runs as long as can be, up to 256. */
  predicate Greedy(d: Dict, ts: seq<Token>, s: seq<byte>)
    decreases |ts|
  {
    if ts == [] then s == []
    else
      match ts[0]
      case Word(c) => IsBest(d, s, c) && Greedy(d, ts[1..], s[|d[c]|..])
      case Single(b) => AllMiss(d, s, 1) && s[0] == b && EndsRun(ts[1..]) && Greedy(d, ts[1..], s[1..])
      case Run(v) =>
        && 2 <= |v| <= 256 && AllMiss(d, s, |v|) && v == s[..|v|]
        && (|v| < 256 ==> EndsRun(ts[1..])) && Greedy(d, ts[1..], s[|v|..])
  }

  /** After a run that could be longer comes a code, or nothing. */
  predicate EndsRun(ts: seq<Token>) {
    ts == [] || ts[0].Word?
  }

  lemma BestIs(d: Dict, s: seq<byte>, c: int)
    requires IsBest(d, s, c)
    ensures Best(d, s, |d|) == c && s != []
  {
    BestOf(d, s, c);
  }

  lemma MissesNone(d: Dict, s: seq<byte>)
    requires Misses(d, s)
    ensures Best(d, s, |d|) == -1
  {
    BestIsFirstLongest(d, s, |d|);
  }

  /** Bytes that miss are gathered, as long as there is room. */
  lemma {:induction false} Gathered(d: Dict, s: seq<byte>, v: seq<byte>, n: nat)
    requires ValidDict(d) && AllMiss(d, s, n) && |v| + n < 256
    ensures Compressed(d, s, v) == Compressed(d, s[n..], v + s[..n])
    decreases n
  {
    if n == 0 {
      NothingTaken(s, v);
    } else {
      MissFirst(d, s, n);
      MissesNone(d, s);
      CompressedMiss(d, s, v, v + [s[0]]);
      Gathered(d, s[1..], v + [s[0]], n - 1);
      OneThenMore(s, v, n);
    }
  }

  lemma NothingTaken(s: seq<byte>, v: seq<byte>)
    ensures s[0..] == s && v + s[..0] == v
  {}

  lemma OneThenMore(s: seq<byte>, v: seq<byte>, n: nat)
    requires 1 <= n <= |s|
    ensures s[1..][n - 1..] == s[n..] && (v + [s[0]]) + s[1..][..n - 1] == v + s[..n]
  {}

  lemma MissFirst(d: Dict, s: seq<byte>, n: nat)
    requires 1 <= n && AllMiss(d, s, n)
    ensures Misses(d, s) && AllMiss(d, s[1..], n - 1)
  {
    assert s[0..] == s;
    forall i | 0 <= i < n - 1 ensures Misses(d, s[1..][i..]) {
      assert s[1..][i..] == s[i + 1..];
    }
  }

  /** A full run is flushed at once. */
  lemma FullRun(d: Dict, s: seq<byte>)
    requires ValidDict(d) && AllMiss(d, s, 256)
    ensures Compressed(d, s, []) == Flush(s[..256]) + Compressed(d, s[256..], [])
  {
    var back := s[255..];
    AllMissLess(d, s, 256, 255);
    Gathered(d, s, [], 255);
    assert [] + s[..255] == s[..255];
    assert Misses(d, back);
    MissesNone(d, back);
    CompressedMiss(d, back, s[..255], s[..255] + [back[0]]);
    LastOfRun(s);
  }

  lemma AllMissLess(d: Dict, s: seq<byte>, n: nat, m: nat)
    requires AllMiss(d, s, n) && m <= n
    ensures AllMiss(d, s, m)
  {}

  lemma LastOfRun(s: seq<byte>)
    requires 256 <= |s|
    ensures s[..255] + [s[255..][0]] == s[..256] && s[255..][1..] == s[256..]
  {}

  /** What was gathered is flushed before a hit, or at the end. */
  lemma FlushedBefore(d: Dict, s: seq<byte>, v: seq<byte>)
    requires ValidDict(d) && |v| < 256 && (s == [] || Best(d, s, |d|) != -1)
    ensures Compressed(d, s, v) == Flush(v) + Compressed(d, s, [])
  {
    if s == [] {
      assert Flush(v) + [] == Flush(v);
    } else {
      var c := Best(d, s, |d|);
      CompressedHit(d, s, v, c, s[|d[c]|..]);
      CompressedHit(d, s, [], c, s[|d[c]|..]);
      assert [] + ([c] + Compressed(d, s[|d[c]|..], [])) == [c] + Compressed(d, s[|d[c]|..], []);
    }
  }

  lemma ShortRun(d: Dict, s: seq<byte>, n: nat)
    requires ValidDict(d) && AllMiss(d, s, n) && n < 256 && (s[n..] == [] || Best(d, s[n..], |d|) != -1)
    ensures Compressed(d, s, []) == Flush(s[..n]) + Compressed(d, s[n..], [])
  {
    Gathered(d, s, [], n);
    assert [] + s[..n] == s[..n];
    FlushedBefore(d, s[n..], s[..n]);
  }

  lemma AfterRun(d: Dict, ts: seq<Token>, s: seq<byte>)
    requires EndsRun(ts) && Greedy(d, ts, s)
    ensures s == [] || Best(d, s, |d|) != -1
  {
    if ts != [] {
      BestIs(d, s, ts[0].code);
    }
  }

  lemma WordFirst(d: Dict, s: seq<byte>, c: int, rest: seq<byte>)
    requires ValidDict(d) && IsBest(d, s, c) && rest == s[|d[c]|..]
    ensures Compressed(d, s, []) == [c] + Compressed(d, rest, [])
  {
    BestIs(d, s, c);
    CompressedHit(d, s, [], c, rest);
    NothingFirst([c] + Compressed(d, rest, []));
  }

  lemma NothingFirst(s: seq<byte>)
    ensures [] + s == s
  {}

  lemma RunFirst(d: Dict, ts: seq<Token>, s: seq<byte>, n: nat, rest: seq<byte>)
    requires ValidDict(d) && 1 <= n <= 256 && AllMiss(d, s, n) && rest == s[n..] && Greedy(d, ts, rest) && (n < 256 ==> EndsRun(ts))
    ensures Compressed(d, s, []) == Flush(s[..n]) + Compressed(d, rest, [])
  {
    if n == 256 {
      FullRun(d, s);
    } else {
      AfterRun(d, ts, rest);
      ShortRun(d, s, n);
    }
  }

  /** The first greedy token is the first thing written. */
  lemma GreedyFirst(d: Dict, ts: seq<Token>, s: seq<byte>) returns (rest: seq<byte>)
    requires ValidDict(d) && ts != [] && Greedy(d, ts, s)
    ensures Greedy(d, ts[1..], rest) && IsToken(d, ts[0])
    ensures Compressed(d, s, []) == Written(d, ts[0]) + Compressed(d, rest, [])
  {
    match ts[0]
    case Word(c) =>
      rest := s[|d[c]|..];
      WordFirst(d, s, c, rest);
    case Single(b) =>
      rest := s[1..];
      RunFirst(d, ts[1..], s, 1, rest);
      assert s[..1] == [b];
    case Run(v) =>
      rest := s[|v|..];
      RunFirst(d, ts[1..], s, |v|, rest);
  }

  lemma AllTokensCons(d: Dict, ts: seq<Token>)
    requires ts != [] && IsToken(d, ts[0]) && AllTokens(d, ts[1..])
    ensures AllTokens(d, ts)
  {
    assert forall i :: 1 <= i < |ts| ==> ts[i] == ts[1..][i - 1];
  }

  /** The compressor writes the greedy tokens of its input, whichever way they were found. */
  lemma {:induction false} GreedyIsCompressed(d: Dict, ts: seq<Token>, s: seq<byte>)
    requires ValidDict(d) && Greedy(d, ts, s)
    ensures AllTokens(d, ts) && AllWritten(d, ts) == Compressed(d, s, [])
    decreases |ts|
  {
    if ts != [] {
      var rest := GreedyFirst(d, ts, s);
      GreedyIsCompressed(d, ts[1..], rest);
      AllTokensCons(d, ts);
    }
  }

  /** How many places miss in a row, up to 256. */
  lemma {:induction false} MissRun(d: Dict, s: seq<byte>, most: nat) returns (n: nat)
    ensures n <= most && AllMiss(d, s, n)
    ensures n == most || n == |s| || !Misses(d, s[n..])
    decreases most
  {
    if most == 0 || s == [] || !Misses(d, s) {
      n := 0;
      assert s[0..] == s;
    } else {
      var m := MissRun(d, s[1..], most - 1);
      n := m + 1;
      forall i | 0 <= i < n ensures Misses(d, s[i..]) {
        if i == 0 {
          assert s[0..] == s;
        } else {
          assert s[i..] == s[1..][i - 1..];
        }
      }
      assert s[1..][m..] == s[n..];
    }
  }

  /** Every input has greedy tokens. */
  lemma {:induction false} GreedyTokens(d: Dict, s: seq<byte>) returns (ts: seq<Token>)
    requires ValidDict(d)
    ensures Greedy(d, ts, s)
    ensures s != [] && !Misses(d, s) ==> ts != [] && ts[0].Word?
    decreases |s|
  {
    if s == [] {
      ts := [];
    } else {
      BestIsFirstLongest(d, s, |d|);
      assert d[..|d|] == d;
      if !Misses(d, s) {
        var c := Best(d, s, |d|);
        var later := GreedyTokens(d, s[|d[c]|..]);
        ts := [Word(c)] + later;
        assert ts[1..] == later;
      } else {
        var n := MissRun(d, s, 256);
        assert s[0..] == s && n != 0;
        var later := GreedyTokens(d, s[n..]);
        ts := [if n == 1 then Single(s[0]) else Run(s[..n])] + later;
        assert ts[1..] == later;
        if n < 256 && s[n..] == [] {
          GreedyOfNothing(d, later);
        }
      }
    }
  }

  lemma GreedyOfNothing(d: Dict, ts: seq<Token>)
    requires Greedy(d, ts, [])
    ensures ts == []
  {}

  /** Verbatim bytes are marked 254, runs 255 with their length less one, and codes stand for themselves. */
  lemma WrittenSpelled(d: Dict, t: Token)
    requires IsToken(d, t)
    ensures Written(d, t) == match t
      case Single(b) => [254, b]
      case Run(v) => [255, |v| - 1] + v
      case Word(c) => [c]
  {}

  // ----- how much it can expand

  /**
   * Amortised over a verbatim run and the hit that ends it: three output bytes for
   * five input bytes, and two thirds of a byte for a run that nothing ends.
   */
  lemma {:induction false} ExpansionFrom(d: Dict, s: seq<byte>, v: seq<byte>)
    requires ValidDict(d) && |v| < 256
    ensures 3 * |Compressed(d, s, v)| <= 5 * (|v| + |s|) + 2
    decreases |s|
  {
    var c := Best(d, s, |d|);
    if s != [] && c != -1 {
      ExpansionFrom(d, s[|d[c]|..], []);
    } else if s != [] {
      var v' := v + [s[0]];
      ExpansionFrom(d, s[1..], if |v'| == 256 then [] else v');
    }
  }

  lemma Expansion(d: Dict, s: seq<byte>)
    requires ValidDict(d)
    ensures 3 * |Compressed(d, s, [])| <= 5 * |s| + 2
  {
    ExpansionFrom(d, s, []);
  }

  /** The bound is reached by a byte outside ASCII, twice. */
  lemma ExpansionIsTight(d: Dict, b: byte)
    requires ValidDict(d) && 128 <= b
    ensures Compressed(d, [b, b], []) == [255, 1, b, b]
    ensures 3 * |Compressed(d, [b, b], [])| == 5 * 2 + 2
  {
    NoHit(d, [b, b]);
    NoHit(d, [b]);
    assert [b, b][1..] == [b] && [b][1..] == [];
    assert Compressed(d, [b], [b]) == Compressed(d, [], [b] + [b]);
    assert Compressed(d, [b, b], []) == Compressed(d, [b], [] + [b]);
    assert [] + [b] == [b] && [b] + [b] == [b, b];
  }

  lemma NoHit(d: Dict, s: seq<byte>)
    requires s != [] && 128 <= s[0]
    ensures Best(d, s, |d|) == -1
  {
    forall k | 0 <= k < |d|
      ensures !Hits(d[k], s)
    {
      assert IsEntry(d[k]) && d[k][0] < 128;
    }
    BestIsFirstLongest(d, s, |d|);
  }

  /** A nonempty input never compresses to nothing. */
  lemma {:induction false} NotEmpty(d: Dict, s: seq<byte>, v: seq<byte>)
    requires ValidDict(d) && |v| < 256 && s + v != []
    ensures Compressed(d, s, v) != []
    decreases |s|
  {
    if s != [] && Best(d, s, |d|) == -1 && |v| != 255 {
      NotEmpty(d, s[1..], v + [s[0]]);
    }
  }

  // ----- the two routines, as loops

  method Matches(input: seq<byte>, offset: nat, entry: seq<byte>) returns (r: bool)
    requires offset <= |input|
    ensures r <==> entry <= input[offset..]
  {
    if |input| < offset + |entry| {
      return false;
    }
    for i := 0 to |entry|
      invariant entry[..i] == input[offset..offset + i]
    {
      if input[offset + i] != entry[i] {
        assert input[offset..][i] == input[offset + i];
        return false;
      }
    }
    assert entry[..|entry|] == entry && input[offset..][..|entry|] == input[offset..offset + |entry|];
    return true;
  }

  method MaxEntryLength(d: Dict) returns (m: nat)
    ensures forall k :: 0 <= k < |d| ==> |d[k]| <= m
  {
    m := 0;
    for k := 0 to |d|
      invariant forall j :: 0 <= j < k ==> |d[j]| <= m
    {
      if m < |d[k]| {
        m := |d[k]|;
      }
    }
  }

  lemma BestOf(d: Dict, s: seq<byte>, c: int)
    requires IsBest(d, s, c)
    ensures Best(d, s, |d|) == c
  {
    assert d[..|d|] == d;
    BestIsFirstLongest(d, s, |d|);
    var b := Best(d, s, |d|);
    assert Hits(d[c], s);
    assert Hits(d[b], s);
  }

  /** The search over all codes; it stops early once nothing longer can hit. */
  method FindBest(d: Dict, maxEntry: nat, input: seq<byte>, index: nat) returns (bestCode: int, bestLen: nat)
    requires ValidDict(d) && index < |input|
    requires forall k :: 0 <= k < |d| ==> |d[k]| <= maxEntry
    ensures bestCode == Best(d, input[index..], |d|)
    ensures bestCode != -1 ==> bestLen == |d[bestCode]|
  {
    bestLen, bestCode := 0, -1;
    var s := input[index..];
    var remaining := |input| - index;
    var maxLen := if remaining < maxEntry then remaining else maxEntry;
    for code := 0 to |d|
      invariant -1 <= bestCode < code
      invariant bestLen == if bestCode == -1 then 0 else |d[bestCode]|
      invariant bestCode != -1 ==> Hits(d[bestCode], s)
      invariant forall k :: 0 <= k < code && Hits(d[k], s) ==>
        bestCode != -1 && |d[k]| <= bestLen && (k < bestCode ==> |d[k]| < bestLen)
    {
      var entry := d[code];
      if |entry| == 0 || maxLen < |entry| || |entry| <= bestLen {
        continue;
      }
      var hit := Matches(input, index, entry);
      if hit {
        bestLen, bestCode := |entry|, code;
        if bestLen == maxLen {
          assert forall k :: 0 <= k < |d| && Hits(d[k], s) ==> |d[k]| <= bestLen;
          BestOf(d, s, bestCode);
          return;
        }
      }
    }
    BestIsFirstLongest(d, s, |d|);
    if bestCode != -1 {
      BestOf(d, s, bestCode);
    }
  }

  /** flushVerbatim */
  method FlushVerbatim(out0: seq<byte>, verbatim: seq<byte>) returns (out: seq<byte>)
    requires |verbatim| <= 256
    ensures out == out0 + Flush(verbatim)
  {
    out := out0;
    if verbatim == [] {
      return;
    }
    if |verbatim| == 1 {
      out := out + [VERBATIM_SINGLE];
      out := out + [verbatim[0]];
    } else {
      out := out + [VERBATIM_RUN];
      out := out + [|verbatim| - 1];
      out := out + verbatim;
    }
  }

  lemma HitTurn(out: seq<byte>, d: Dict, s: seq<byte>, v: seq<byte>, c: int, rest: seq<byte>)
    requires ValidDict(d) && |v| < 256 && s != [] && c == Best(d, s, |d|) && c != -1 && rest == s[|d[c]|..]
    ensures out + Compressed(d, s, v) == ((out + Flush(v)) + [c]) + Compressed(d, rest, [])
  {
    CompressedHit(d, s, v, c, rest);
    var more := Compressed(d, rest, []);
    ConcatAssoc(out, Flush(v), [c] + more);
    ConcatAssoc(out + Flush(v), [c], more);
  }

  lemma MissTurn(out: seq<byte>, d: Dict, s: seq<byte>, v: seq<byte>, v': seq<byte>)
    requires ValidDict(d) && |v| < 256 && s != [] && Best(d, s, |d|) == -1 && v' == v + [s[0]]
    ensures out + Compressed(d, s, v)
      == if |v'| == 256 then (out + Flush(v')) + Compressed(d, s[1..], []) else out + Compressed(d, s[1..], v')
  {
    CompressedMiss(d, s, v, v');
    if |v'| == 256 {
      ConcatAssoc(out, Flush(v'), Compressed(d, s[1..], []));
    }
  }

  /** One turn of the loop: what is still to come is not changed by it. */
  method CompressTurn(d: Dict, maxEntry: nat, input: seq<byte>, index0: nat, verbatim0: seq<byte>, out0: seq<byte>)
    returns (index: nat, verbatim: seq<byte>, out: seq<byte>)
    requires ValidDict(d) && index0 < |input| && |verbatim0| < 256
    requires forall k :: 0 <= k < |d| ==> |d[k]| <= maxEntry
    ensures index0 < index <= |input| && |verbatim| < 256
    ensures out + Compressed(d, input[index..], verbatim) == out0 + Compressed(d, input[index0..], verbatim0)
  {
    ghost var s := input[index0..];
    var bestCode, bestLen := FindBest(d, maxEntry, input, index0);
    if 0 <= bestCode {
      index := index0 + bestLen;
      assert s[bestLen..] == input[index..];
      HitTurn(out0, d, s, verbatim0, bestCode, input[index..]);
      out := FlushVerbatim(out0, verbatim0);
      out := out + [bestCode];
      verbatim := [];
      return;
    }
    MissTurn(out0, d, s, verbatim0, verbatim0 + [s[0]]);
    index := index0 + 1;
    assert s[1..] == input[index..];
    verbatim, out := verbatim0 + [input[index0]], out0;
    if |verbatim| == 256 {
      out := FlushVerbatim(out, verbatim);
      verbatim := [];
    }
  }

  method CompressBytes(d: Dict, input: seq<byte>) returns (out: seq<byte>)
    requires ValidDict(d)
    ensures out == Compressed(d, input, [])
  {
    var maxEntry := MaxEntryLength(d);
    var verbatim: seq<byte> := [];
    var index := 0;
    out := [];
    assert input[0..] == input;
    while index < |input|
      invariant 0 <= index <= |input| && |verbatim| < 256
      invariant out + Compressed(d, input[index..], verbatim) == Compressed(d, input, [])
      decreases |input| - index
    {
      index, verbatim, out := CompressTurn(d, maxEntry, input, index, verbatim, out);
    }
    out := FlushVerbatim(out, verbatim);
  }

  method DecompressBytes(d: Dict, input: seq<byte>) returns (r: Option<seq<byte>>)
    ensures r == Decompressed(d, input)
  {
    var out: seq<byte> := [];
    var index: nat := 0;
    assert input[0..] == input;
    PrefixedNothing(Decompressed(d, input));
    while index < |input|
      invariant index <= |input|
      invariant Prefixed(out, Decompressed(d, input[index..])) == Decompressed(d, input)
      decreases |input| - index
    {
      var piece, next := TakePiece(d, input, index);
      if piece.None? {
        return None;
      }
      PrefixedTwice(out, piece.value, Decompressed(d, input[next..]));
      out, index := out + piece.value, next;
    }
    assert out + [] == out;
    return Some(out);
  }

  /** What the code at index stands for, and where the next one is; none stands for the exception. */
  method TakePiece(d: Dict, input: seq<byte>, index: nat) returns (piece: Option<seq<byte>>, next: nat)
    requires index < |input|
    ensures piece.None? ==> Decompressed(d, input[index..]) == None
    ensures piece.Some? ==>
      index < next <= |input| && Decompressed(d, input[index..]) == Prefixed(piece.value, Decompressed(d, input[next..]))
  {
    ghost var s := input[index..];
    var code := input[index];
    if code == VERBATIM_SINGLE {
      if |input| <= index + 1 {
        return None, index;
      }
      assert s[1..2] == [input[index + 1]] && s[2..] == input[index + 2..];
      return Some([input[index + 1]]), index + 2;
    }
    if code == VERBATIM_RUN {
      if |input| <= index + 1 {
        return None, index;
      }
      var end := index + 2 + (input[index + 1] as int + 1);
      if |input| < end {
        return None, index;
      }
      assert s[2..3 + s[1] as int] == input[index + 2..end] && s[3 + s[1] as int..] == input[end..];
      return Some(input[index + 2..end]), end;
    }
    if |d| <= code {
      return None, index;
    }
    assert s[1..] == input[index + 1..];
    return Some(d[code]), index + 1;
  }
}
