/**
 * The companion server's byte stream: frames from the app are
 * '<' length-low length-high payload, found again after garbage by moving on
 * one byte at a time.
 */
module FrameServer {
  import opened Prelude

  const FRAME_TO_NODE: byte := 0x3C
  const MAX_PAYLOAD := 172

  type Frame = seq<byte>

  // ----- one look at the front of the buffer

  datatype Look = Wait | Skip | Take(frame: Frame)

  function Announced(s: seq<byte>): (n: nat)
    requires 3 <= |s|
  {
    s[1] as int + 256 * s[2] as int
  }

  function LookAt(s: seq<byte>): (l: Look)
    ensures l.Take? ==> 3 + |l.frame| <= |s| && |l.frame| <= MAX_PAYLOAD
    ensures l.Skip? ==> 3 <= |s|
  {
    if |s| < 3 then Wait
    else if s[0] != FRAME_TO_NODE then Skip
    else if MAX_PAYLOAD < Announced(s) then Skip
    else if |s| < 3 + Announced(s) then Wait
    else Take(s[3..3 + Announced(s)])
  }

  /** The frames found in s, and what stays buffered. */
  datatype Scan = Scan(frames: seq<Frame>, rest: seq<byte>)

  function Scanned(s: seq<byte>): (r: Scan)
    ensures |r.rest| <= |s|
    decreases |s|
  {
    match LookAt(s)
    case Wait => Scan([], s)
    case Skip => Scanned(s[1..])
    case Take(f) =>
      var later := Scanned(s[3 + |f|..]);
      Scan([f] + later.frames, later.rest)
  }

  // ----- what the bytes read mean, whatever the reads were

  /** More bytes never change a decision that was already taken. */
  lemma LookStable(a: seq<byte>, b: seq<byte>)
    requires !LookAt(a).Wait?
    ensures LookAt(a + b) == LookAt(a)
  {
    if LookAt(a).Take? {
      assert (a + b)[3..3 + Announced(a)] == a[3..3 + Announced(a)];
    }
  }

  /** Scanning a first and then what it left together with b is scanning a + b. */
  lemma {:induction false} ScanAppend(a: seq<byte>, b: seq<byte>)
    ensures
      var first := Scanned(a);
      var second := Scanned(first.rest + b);
      Scanned(a + b) == Scan(first.frames + second.frames, second.rest)
    decreases |a|
  {
    match LookAt(a)
    case Wait =>
    case Skip =>
      LookStable(a, b);
      assert (a + b)[1..] == a[1..] + b;
      ScanAppend(a[1..], b);
    case Take(f) =>
      LookStable(a, b);
      var more := a[3 + |f|..];
      assert (a + b)[3 + |f|..] == more + b;
      ScanAppend(more, b);
      ConcatAssoc([f], Scanned(more).frames, Scanned(Scanned(more).rest + b).frames);
  }

  /** The read loop on values: every chunk is appended to what the chunks before it left. */
  function Served(left: seq<byte>, chunks: seq<seq<byte>>): Scan
    decreases |chunks|
  {
    if chunks == [] then Scan([], left)
    else
      var now := Scanned(left + chunks[0]);
      var later := Served(now.rest, chunks[1..]);
      Scan(now.frames + later.frames, later.rest)
  }

  /**
   * The frames handed on, and the bytes kept, depend on the concatenation of the
   * reads only.
   */
  lemma {:induction false} ChunkingIrrelevant(chunks: seq<seq<byte>>)
    ensures Served([], chunks) == Scanned(Flatten(chunks))
  {
    ServedFrom([], chunks);
    assert [] + Flatten(chunks) == Flatten(chunks);
  }

  lemma {:induction false} ServedFrom(left: seq<byte>, chunks: seq<seq<byte>>)
    requires Scanned(left) == Scan([], left)
    ensures Served(left, chunks) == Scanned(left + Flatten(chunks))
    decreases |chunks|
  {
    if chunks == [] {
      assert left + [] == left;
    } else {
      var now := Scanned(left + chunks[0]);
      RestIsWaiting(left + chunks[0]);
      ServedFrom(now.rest, chunks[1..]);
      ScanAppend(left + chunks[0], Flatten(chunks[1..]));
      ConcatAssoc(left, chunks[0], Flatten(chunks[1..]));
    }
  }

  /** What stays buffered is short, and scanning it again finds nothing. */
  lemma {:induction false} RestIsWaiting(s: seq<byte>)
    ensures |Scanned(s).rest| <= 174
    ensures Scanned(Scanned(s).rest) == Scan([], Scanned(s).rest)
    decreases |s|
  {
    match LookAt(s)
    case Wait =>
    case Skip => RestIsWaiting(s[1..]);
    case Take(f) => RestIsWaiting(s[3 + |f|..]);
  }

  // ----- framing undone

  function Framed(payload: Frame): (s: seq<byte>)
    requires |payload| < 0x1_0000
  {
    [FRAME_TO_NODE, |payload| % 256, |payload| / 256] + payload
  }

  predicate Fits(payloads: seq<Frame>) {
    forall i :: 0 <= i < |payloads| ==> |payloads[i]| <= 172
  }

  function FramedAll(payloads: seq<Frame>): seq<byte>
    requires Fits(payloads)
  {
    if payloads == [] then [] else Framed(payloads[0]) + FramedAll(payloads[1..])
  }

  lemma FramedIsTaken(payload: Frame, more: seq<byte>)
    requires |payload| <= 172
    ensures Scanned(Framed(payload) + more) == Scan([payload] + Scanned(more).frames, Scanned(more).rest)
  {
    var s := Framed(payload) + more;
    assert Announced(s) == |payload|;
    assert s[3..3 + |payload|] == payload;
    assert s[3 + |payload|..] == more;
  }

  lemma {:induction false} FramesReadBack(payloads: seq<Frame>, more: seq<byte>)
    requires Fits(payloads)
    ensures Scanned(FramedAll(payloads) + more)
         == Scan(payloads + Scanned(more).frames, Scanned(more).rest)
    decreases |payloads|
  {
    if payloads == [] {
      assert [] + more == more;
      assert payloads + Scanned(more).frames == Scanned(more).frames;
    } else {
      var later := FramedAll(payloads[1..]);
      ConcatAssoc(Framed(payloads[0]), later, more);
      FramedIsTaken(payloads[0], later + more);
      FramesReadBack(payloads[1..], more);
      ConcatAssoc([payloads[0]], payloads[1..], Scanned(more).frames);
      assert [payloads[0]] + payloads[1..] == payloads;
    }
  }

  /** The mark at i announces, with the two bytes after it, a frame that can be; or is cut off by the end. */
  predicate FalseStart(garbage: seq<byte>, i: nat)
    requires i < |garbage|
  {
    && garbage[i] == 0x3C
    && (i + 1 == |garbage| || (i + 2 < |garbage| && garbage[i + 1] as int + 256 * garbage[i + 2] as int <= 172))
  }

  predicate NoFalseStart(garbage: seq<byte>) {
    forall i :: 0 <= i < |garbage| ==> !FalseStart(garbage, i)
  }

  lemma UnmarkedHasNoFalseStart(garbage: seq<byte>)
    requires 0x3C !in garbage
    ensures NoFalseStart(garbage)
  {}

  lemma FalseStartShifts(garbage: seq<byte>, i: nat)
    requires 1 <= i < |garbage|
    ensures FalseStart(garbage, i) <==> FalseStart(garbage[1..], i - 1)
  {
    assert garbage[i..] == garbage[1..][i - 1..];
  }

  /** Where garbage has no false start at its front, one byte of it is skipped. */
  lemma FrontSkipped(garbage: seq<byte>, s: seq<byte>)
    requires garbage != [] && !FalseStart(garbage, 0) && 3 <= |s| && s[0] == FRAME_TO_NODE
    ensures Scanned(garbage + s) == Scanned(garbage[1..] + s)
  {
    var all := garbage + s;
    assert all[1..] == garbage[1..] + s;
    if garbage[0] == FRAME_TO_NODE {
      assert 2 <= |garbage|;
      assert MAX_PAYLOAD < Announced(all);
    }
  }

  lemma {:induction false} GarbageSkipped(garbage: seq<byte>, s: seq<byte>)
    requires NoFalseStart(garbage) && 3 <= |s| && s[0] == FRAME_TO_NODE
    ensures Scanned(garbage + s) == Scanned(s)
    decreases |garbage|
  {
    if garbage == [] {
      assert garbage + s == s;
    } else {
      FrontSkipped(garbage, s);
      forall i | 0 <= i < |garbage[1..]| ensures !FalseStart(garbage[1..], i) {
        FalseStartShifts(garbage, i + 1);
      }
      GarbageSkipped(garbage[1..], s);
    }
  }

  /** Bytes are used up by a frame only. */
  lemma {:induction false} UsedUpByFrames(s: seq<byte>)
    requires s != [] && Scanned(s).rest == []
    ensures Scanned(s).frames != []
    decreases |s|
  {
    if LookAt(s).Skip? {
      UsedUpByFrames(s[1..]);
    }
  }

  /** Garbage with a false start spoils the empty frame after it. */
  lemma {:induction false} FalseStartSpoils(garbage: seq<byte>, i: nat)
    requires i < |garbage| && FalseStart(garbage, i) && forall j :: 0 <= j < i ==> !FalseStart(garbage, j)
    ensures Scanned(garbage + Framed([])) != Scan([[]], [])
    decreases |garbage|
  {
    var s := garbage + Framed([]);
    if i != 0 {
      FrontSkipped(garbage, Framed([]));
      FalseStartShifts(garbage, i);
      forall j | 0 <= j < i - 1 ensures !FalseStart(garbage[1..], j) {
        FalseStartShifts(garbage, j + 1);
      }
      FalseStartSpoils(garbage[1..], i - 1);
    } else if |garbage| == 1 {
      assert Announced(s) == 0x3C;
    } else {
      assert garbage[0..] == garbage;
      TakenAtOnce(s);
    }
  }

  /** A frame taken, and then more bytes, are not one empty frame alone. */
  lemma TakenAtOnce(s: seq<byte>)
    requires 3 < |s| && s[0] == FRAME_TO_NODE && Announced(s) <= MAX_PAYLOAD
    ensures Scanned(s) != Scan([[]], [])
  {
    if LookAt(s).Take? {
      var f := LookAt(s).frame;
      TakenIsFirst(f, Scanned(s[3 + |f|..]));
      if s[3 + |f|..] != [] {
        NotUsedUp(f, s[3 + |f|..]);
      }
    }
  }

  lemma TakenIsFirst(f: Frame, later: Scan)
    ensures f != [] ==> [f] + later.frames != [[]]
  {
    assert ([f] + later.frames)[0] == f;
  }

  lemma NotUsedUp(f: Frame, s: seq<byte>)
    requires s != []
    ensures Scan([f] + Scanned(s).frames, Scanned(s).rest) != Scan([f], [])
  {
    if Scanned(s).rest == [] {
      UsedUpByFrames(s);
      assert |[f] + Scanned(s).frames| > 1;
    }
  }

  lemma {:induction false} FirstFalseStart(garbage: seq<byte>, n: nat) returns (i: nat)
    requires n < |garbage| && FalseStart(garbage, n)
    ensures i < |garbage| && FalseStart(garbage, i) && forall j :: 0 <= j < i ==> !FalseStart(garbage, j)
  {
    i := n;
    if j :| 0 <= j < n && FalseStart(garbage, j) {
      i := FirstFalseStart(garbage, j);
    }
  }

  /** Whatever framed payloads follow, exactly those are found. */
  ghost predicate Harmless(garbage: seq<byte>) {
    forall ps :: ps != [] && Fits(ps) ==> Scanned(garbage + FramedAll(ps)) == Scan(ps, [])
  }

  /** Garbage is harmless if and only if it has no false start. */
  lemma HarmlessIff(garbage: seq<byte>)
    ensures Harmless(garbage) <==> NoFalseStart(garbage)
  {
    if NoFalseStart(garbage) {
      forall ps | ps != [] && Fits(ps) ensures Scanned(garbage + FramedAll(ps)) == Scan(ps, []) {
        FramesAfterGarbage(garbage, ps);
      }
    } else {
      var n :| 0 <= n < |garbage| && FalseStart(garbage, n);
      var i := FirstFalseStart(garbage, n);
      FalseStartSpoils(garbage, i);
      assert FramedAll([[]]) == Framed([]) + [];
      assert FramedAll([[]]) == Framed([]);
    }
  }

  lemma FramesAfterGarbage(garbage: seq<byte>, payloads: seq<Frame>)
    requires NoFalseStart(garbage) && payloads != [] && Fits(payloads)
    ensures Scanned(garbage + FramedAll(payloads)) == Scan(payloads, [])
  {
    GarbageSkipped(garbage, FramedAll(payloads));
    FramesReadBack(payloads, []);
    assert FramedAll(payloads) + [] == FramedAll(payloads);
    assert payloads + [] == payloads;
  }

  /**
   * Garbage without a false start, then framed payloads, read in chunks of any size:
   * exactly those payloads are handed on, in order, and nothing stays buffered.
   */
  lemma StreamReadBack(garbage: seq<byte>, payloads: seq<Frame>, chunks: seq<seq<byte>>)
    requires NoFalseStart(garbage) && payloads != [] && Fits(payloads)
    requires Flatten(chunks) == garbage + FramedAll(payloads)
    ensures Served([], chunks) == Scan(payloads, [])
  {
    ChunkingIrrelevant(chunks);
    FramesAfterGarbage(garbage, payloads);
  }

  /**
   * Resynchronising can lose a frame: a mark in the garbage announces a length, and
   * the scan then takes, or waits for, that many bytes of what follows.
   */
  lemma MarkedGarbageLosesFrame()
    ensures
      var s := [0x3C, 4, 0] + Framed([7]);
      FalseStart([0x3C, 4, 0], 0) && Framed([7]) == [0x3C, 1, 0, 7] && Scanned(s).frames == [Framed([7])]
  {
    var s := [FRAME_TO_NODE, 4, 0] + Framed([7]);
    assert Announced(s) == 4;
    assert s[3..7] == Framed([7]);
    assert Scanned(s[7..]) == Scan([], []);
  }

  // ----- serveClient

  /** What a scan of s gives after the frames already found. */
  function After(found: seq<Frame>, s: seq<byte>): Scan {
    Scan(found + Scanned(s).frames, Scanned(s).rest)
  }

  /** How far one turn of the loop moves. */
  function Stride(l: Look): nat {
    match l
    case Wait => 0
    case Skip => 1
    case Take(f) => 3 + |f|
  }

  function Found(l: Look): seq<Frame> {
    if l.Take? then [l.frame] else []
  }

  /** The frames found before pos, and those from pos on, are the whole scan. */
  ghost predicate Parsing(all: seq<byte>, pos: int, found: seq<Frame>, want: Scan) {
    0 <= pos <= |all| && want == After(found, all[pos..])
  }

  lemma ParsingStarts(all: seq<byte>)
    ensures Parsing(all, 0, [], Scanned(all))
  {
    assert all[0..] == all;
    assert [] + Scanned(all).frames == Scanned(all).frames;
  }

  lemma Turn(all: seq<byte>, pos: int, found: seq<Frame>, want: Scan, l: Look)
    requires Parsing(all, pos, found, want) && l == LookAt(all[pos..]) && l != Wait
    ensures pos < pos + Stride(l) <= |all| && Parsing(all, pos + Stride(l), found + Found(l), want)
    ensures l == Skip ==> found + Found(l) == found
  {
    assert all[pos..][Stride(l)..] == all[pos + Stride(l)..];
    ConcatAssoc(found, Found(l), Scanned(all[pos + Stride(l)..]).frames);
    if l == Skip {
      assert found + [] == found;
    }
  }

  lemma ParsingEnds(all: seq<byte>, pos: int, found: seq<Frame>, want: Scan)
    requires Parsing(all, pos, found, want) && LookAt(all[pos..]) == Wait
    ensures want == Scan(found, all[pos..])
  {
    assert found + [] == found;
  }

  /** The branches of one turn of the parsing loop. */
  method Examine(buf: seq<byte>, pos: nat) returns (l: Look)
    requires pos <= |buf|
    ensures l == LookAt(buf[pos..])
  {
    if |buf| - pos < 3 {
      return Wait;
    }
    if buf[pos] != FRAME_TO_NODE {
      return Skip;
    }
    var len := buf[pos + 1] as int + 256 * buf[pos + 2] as int;
    if MAX_PAYLOAD < len {
      return Skip;
    }
    if |buf| - pos < 3 + len {
      return Wait;
    }
    assert buf[pos..][3..3 + len] == buf[pos + 3..pos + 3 + len];
    return Take(buf[pos + 3..pos + 3 + len]);
  }

  /** The server's side of one connection. */
  class Connection {
    var buf: seq<byte>
    var appSpoke: bool
    /** every frame passed to handleCommand, in order */
    var handled: seq<Frame>

    constructor ()
      ensures buf == [] && !appSpoke && handled == []
    {
      buf, appSpoke, handled := [], false, [];
    }

    /** One successful read: parse as far as possible, then drop what was parsed. */
    method OnRead(chunk: seq<byte>)
      modifies this
      ensures buf == Scanned(old(buf) + chunk).rest
      ensures handled == old(handled) + Scanned(old(buf) + chunk).frames
      ensures appSpoke == (old(appSpoke) || Scanned(old(buf) + chunk).frames != [])
    {
      buf := buf + chunk;
      ghost var all, before, found, want := buf, handled, [], Scanned(buf);
      var pos := 0;
      ParsingStarts(all);
      var l := Examine(buf, pos);
      while l != Wait
        invariant buf == all && Parsing(all, pos, found, want) && l == LookAt(all[pos..])
        invariant handled == before + found && appSpoke == (old(appSpoke) || found != [])
        decreases |all| - pos
      {
        Turn(all, pos, found, want, l);
        ConcatAssoc(before, found, Found(l));
        if l == Skip {
          pos := pos + 1;
        } else {
          pos := pos + 3 + |l.frame|;
          appSpoke := true;
          handled, found := handled + [l.frame], found + [l.frame];
        }
        l := Examine(buf, pos);
      }
      ParsingEnds(all, pos, found, want);
      buf := buf[pos..];
    }
  }

  /** The read loop up to the client's disconnection. */
  method ServeClient(chunks: seq<seq<byte>>) returns (handled: seq<Frame>, left: seq<byte>)
    ensures handled == Scanned(Flatten(chunks)).frames && left == Scanned(Flatten(chunks)).rest
  {
    var c := new Connection();
    for i := 0 to |chunks|
      invariant fresh(c)
      invariant Served([], chunks)
        == Scan(c.handled + Served(c.buf, chunks[i..]).frames, Served(c.buf, chunks[i..]).rest)
    {
      assert chunks[i..][1..] == chunks[i + 1..];
      ghost var now := Scanned(c.buf + chunks[i]);
      ConcatAssoc(c.handled, now.frames, Served(now.rest, chunks[i + 1..]).frames);
      c.OnRead(chunks[i]);
    }
    ChunkingIrrelevant(chunks);
    handled, left := c.handled, c.buf;
  }
}
