/**
 * Two nodes: one floods a text, the other answers with the way it came and the ACK,
 * and the first then knows that way.
 */
module PathExchange {
  import opened Prelude
  import opened NodeSpec
  import AckLedger
  import Dedup
  import NodeRuns
  import Queues
  import Runs

  /** The hops of a packet: at most 63, all hashes of one width. */
  predicate Travelled(hops: seq<Hop>, width: nat) {
    |hops| <= 63 && 1 <= width <= 4 && forall i :: 0 <= i < |hops| ==> |hops[i]| == width
  }

  lemma {:induction false} FlattenLength(hops: seq<Hop>, width: nat)
    requires forall i :: 0 <= i < |hops| ==> |hops[i]| == width
    ensures |Flatten(hops)| == |hops| * width
  {
    if hops != [] {
      FlattenLength(hops[1..], width);
      assert |hops| * width == width + (|hops| - 1) * width;
    }
  }

  /** The length byte tells hops and width apart, except that one combination reads as no route at all. */
  lemma PackedReads(hops: seq<Hop>, width: nat)
    requires Travelled(hops, width)
    ensures PathBytes(Packed(hops)) == |hops| * width == |Flatten(hops)|
    ensures hops != [] ==> Packed(hops) % 64 == |hops| && RouteWidth(Packed(hops)) == width
    ensures Packed(hops) == UNKNOWN_PATH <==> |hops| == 63 && width == 4
  {
    FlattenLength(hops, width);
    if hops != [] {
      assert |hops[|hops| - 1]| == width;
      LengthByte(|hops|, width, Packed(hops));
    }
  }

  lemma LengthByte(count: nat, width: nat, packed: byte)
    requires 1 <= count <= 63 && 1 <= width <= 4 && packed == count % 64 + 64 * ((width - 1) % 4)
    ensures packed % 64 == count && packed / 64 == width - 1
    ensures packed == UNKNOWN_PATH <==> count == 63 && width == 4
  {
    assert packed == count + 64 * (width - 1);
  }

  lemma SharedCommutes(a: Key, b: Key)
    ensures Shared(a, b) == Shared(b, a)
  {}

  /** Only the contact a payload is sealed for opens it. */
  lemma SenderIsUnique(cfg: Config, s: State, k: Key)
    requires k in s.contacts
    ensures Sender(cfg, s, FirstByte(k), Shared(cfg.me, k)) == Some(k)
  {
    var r := Sender(cfg, s, FirstByte(k), Shared(cfg.me, k));
    SharedIsInjective(cfg.me, k, r.value);
  }

  /** Opened, padding and all, a PATH return reads as the route and the ACK put into it. */
  lemma ReplyReadBack(hops: seq<Hop>, width: nat, ack6: seq<byte>)
    requires Travelled(hops, width) && |ack6| == 6
    ensures
      var d := Opened(PathReply(hops, ack6));
      var n := PathBytes(Packed(hops));
      && n + 8 <= |d| && d[0] == Packed(hops) && d[1..1 + n] == Flatten(hops)
      && d[1 + n] == 3 && d[2 + n..6 + n] == ack6[..4]
  {
    PackedReads(hops, width);
    var d := Opened(PathReply(hops, ack6));
    var n := PathBytes(Packed(hops));
    var plain := PathReply(hops, ack6);
    assert plain[1..1 + n] == Flatten(hops);
    assert plain[1 + n] == EXTRA_ACK;
    assert plain[2 + n..6 + n] == ack6[..4];
    assert d[..|plain|] == plain;
    assert d[1..1 + n] == plain[1..1 + n];
    assert d[2 + n..6 + n] == plain[2 + n..6 + n];
  }

  // ----- effects, a few at a time

  lemma ApplyOne(s: State, e: Effect)
    ensures ApplyAll(s, [e]) == Apply(s, e)
  {
    Runs.FoldLast(Apply, s, [], e);
    assert [] + [e] == [e];
  }

  lemma ApplyThen(s: State, es: seq<Effect>, e: Effect)
    ensures ApplyAll(s, es + [e]) == Apply(ApplyAll(s, es), e)
  {
    Runs.FoldLast(Apply, s, es, e);
  }

  lemma ApplyPair(s: State, a: Effect, b: Effect)
    ensures ApplyAll(s, [a, b]) == Apply(Apply(s, a), b)
  {
    ApplyOne(s, a);
    ApplyThen(s, [a], b);
    assert [a] + [b] == [a, b];
  }

  /** What is told leaves the node as it was. */
  lemma {:induction false} TellingChangesNothing(s: State, es: seq<Effect>)
    requires forall i :: 0 <= i < |es| ==> es[i].Tell?
    ensures ApplyAll(s, es) == s
    decreases |es|
  {
    if es != [] {
      assert Apply(s, es[0]) == s;
      TellingChangesNothing(s, es[1..]);
    }
  }

  // ----- the text goes out

  /** The command asks for a plain text to the contact k, and the packet for it can be built. */
  ghost predicate AsksForText(cfg: Config, s: State, f: seq<byte>, k: Key) {
    && 14 <= |f| && f[1] == 0
    && FirstMatch(s.contacts, FromBe(f[7..13])) == Some(k)
    && cfg.fits(Routed(s.contacts[k], TextPayload(cfg, k, f), FloodWidth(s)))
  }

  lemma TextGoesOut(cfg: Config, s: State, f: seq<byte>, k: Key, now: real)
    requires AsksForText(cfg, s, f, k)
    ensures
      var after := Step(cfg, s, TextCommand(f, now));
      && after.txQueue == s.txQueue + [Routed(s.contacts[k], TextPayload(cfg, k, f), FloodWidth(s))]
      && after.pendingAcks == AckLedger.Pushed(s.pendingAcks, AckLedger.PendingAck(TextAck(cfg, f), now))
      && after.contacts == s.contacts
      && after.seen == s.seen[DedupKey(TextPayload(cfg, k, f), []) := now]
  {
    var payload := TextPayload(cfg, k, f);
    var packet := Routed(s.contacts[k], payload, FloodWidth(s));
    var answer := RespSent(!packet.direct, TextAck(cfg, f), if packet.direct then 8000 else 15000);
    var mark, wait := Mark(payload, now), AwaitAck(TextAck(cfg, f), now);
    assert OnText(cfg, s, f, now) == [mark, wait, Transmit(packet), Tell(answer)];
    ApplyPair(s, mark, wait);
    ApplyThen(s, [mark, wait], Transmit(packet));
    ApplyThen(s, [mark, wait] + [Transmit(packet)], Tell(answer));
    assert ([mark, wait] + [Transmit(packet)]) + [Tell(answer)] == OnText(cfg, s, f, now);
  }

  // ----- the other node answers

  /** The text as it arrives over these hops. */
  function Arriving(sender: Config, receiver: Config, f: seq<byte>, hops: seq<Hop>, time: real): RxPacket
    requires 14 <= |f|
  {
    RxPacket(true, TextPayload(sender, receiver.me, f), hops, time)
  }

  /** A PATH return for the sender: the hops travelled, the ACK of the text, its attempt, and a random byte. */
  function Answer(a: Config, b: Config, f: seq<byte>, hops: seq<Hop>, salt: byte): Payload
    requires 14 <= |f|
  {
    var ack := b.ackHash(FromLe32(f[3..7]), f[2], CString(f[13..]), a.me);
    Path(FirstByte(a.me), FirstByte(b.me), Shared(b.me, a.me), PathReply(hops, Le32(ack) + [f[2], salt]))
  }

  lemma ArrivingIsFromSender(a: Config, b: Config, s: State, f: seq<byte>, hops: seq<Hop>, time: real)
    requires 14 <= |f| && a.me in s.contacts
    ensures
      var p := Arriving(a, b, f, hops, time);
      p.payload.dest == FirstByte(b.me) && Sender(b, s, p.payload.src, p.payload.secret) == Some(a.me)
  {
    SharedCommutes(a.me, b.me);
    SenderIsUnique(b, s, a.me);
  }

  /** A flooded text makes the receiver queue it for its app, and answer with the way it came. */
  lemma ReceiverAnswers(a: Config, b: Config, s: State, f: seq<byte>, hops: seq<Hop>, time: real, salt: byte)
    requires 14 <= |f| && a.me in s.contacts
    requires
      var p := Arriving(a, b, f, hops, time);
      !Dedup.Recent(s.seen, KeyOf(p), p.time) && b.fits(Reply(b, FloodWidth(s), a.me, p, salt))
    ensures
      var p := Arriving(a, b, f, hops, time);
      var after := Step(b, s, Receive(p, salt));
      && after.txQueue == s.txQueue + [TxPacket(false, Answer(a, b, f, hops, salt), [], FloodWidth(s))]
      && after.inbox == Queues.Kept(s.inbox + [ContactMsg(a.me, |hops|, p.payload.msg.timestamp, p.payload.msg.text)])
  {
    var p := Arriving(a, b, f, hops, time);
    var heard := Apply(s, Hear(KeyOf(p), p.time));
    ArrivingIsFromSender(a, b, heard, f, hops, time);
    var reply := Reply(b, FloodWidth(s), a.me, p, salt);
    var touched := Remember(a.me, s.contacts[a.me].(lastMod := p.time));
    var message := ContactMsg(a.me, |p.hops|, p.payload.msg.timestamp, p.payload.msg.text);
    assert OnTextHeard(b, heard, p, salt)
        == [touched] + (QueueForApp(s.connected, message) + [Mark(reply.payload, p.time), Transmit(reply)]);
    AnswerEffects(s, Hear(KeyOf(p), p.time), touched, message, Mark(reply.payload, p.time), reply);
  }

  lemma AnswerEffects(s: State, hear: Effect, touched: Effect, m: Message, mark: Effect, reply: TxPacket)
    requires hear.Hear? && touched.Remember? && mark.Mark?
    ensures
      var after := ApplyAll(s, [hear] + ([touched] + (QueueForApp(s.connected, m) + [mark, Transmit(reply)])));
      after.txQueue == s.txQueue + [reply] && after.inbox == Queues.Kept(s.inbox + [m])
  {
    var heard := Apply(Apply(s, hear), touched);
    ApplyPair(s, hear, touched);
    var queued := ApplyAll(heard, QueueForApp(s.connected, m));
    assert queued.txQueue == s.txQueue && queued.inbox == Apply(s, Queue(m)).inbox by {
      ApplyOne(heard, Queue(m));
      if s.connected {
        ApplyThen(heard, [Queue(m)], Tell(PushMsgWaiting));
      } else {
        assert [Queue(m)] + [] == [Queue(m)];
      }
    }
    ApplyPair(queued, mark, Transmit(reply));
    Runs.FoldAppend(Apply, s, [hear, touched], QueueForApp(s.connected, m));
    Runs.FoldAppend(Apply, s, [hear, touched] + QueueForApp(s.connected, m), [mark, Transmit(reply)]);
    assert [hear] + ([touched] + (QueueForApp(s.connected, m) + [mark, Transmit(reply)]))
        == ([hear, touched] + QueueForApp(s.connected, m)) + [mark, Transmit(reply)];
  }

  // ----- the answer comes home

  /** What the sender does with the answer: the route first, then the ACK. */
  lemma AnswerIsRead(a: Config, b: Config, s: State, f: seq<byte>, hops: seq<Hop>, width: nat, salt: byte, home: RxPacket)
    requires 14 <= |f| && Travelled(hops, width) && a.ackHash == b.ackHash && b.me in s.contacts
    requires home.payload == Answer(a, b, f, hops, salt)
    ensures
      var c := s.contacts[b.me].(outPathLen := Packed(hops), outPath := Flatten(hops), lastMod := home.time);
      home.payload.Path? && OnPathHeard(a, s, home)
      == RouteLearned(s.connected, b.me, c) + OnAckValue(s.pendingAcks, s.connected, TextAck(a, f), home.time)
  {
    SharedCommutes(a.me, b.me);
    SenderIsUnique(a, s, b.me);
    var ack6 := Le32(TextAck(a, f)) + [f[2], salt];
    assert home.payload.plain == PathReply(hops, ack6);
    ReplyReadBack(hops, width, ack6);
    ExtraIsAck(s, b.me, hops, TextAck(a, f), ack6, home.time);
  }

  lemma ExtraIsAck(s: State, k: Key, hops: seq<Hop>, ack: U32, ack6: seq<byte>, time: real)
    requires |ack6| == 6 && ack6[..4] == Le32(ack)
    requires
      var d := Opened(PathReply(hops, ack6));
      var n := PathBytes(Packed(hops));
      n + 8 <= |d| && d[1 + n] == EXTRA_ACK && d[2 + n..6 + n] == ack6[..4]
    ensures
      var d := Opened(PathReply(hops, ack6));
      var n := PathBytes(Packed(hops));
      OnExtra(s, k, Packed(hops), d, n, time) == OnAckValue(s.pendingAcks, s.connected, ack, time)
  {
    Le32RoundTrip(ack);
  }

  lemma LearningEffects(s: State, hear: Effect, k: Key, c: Contact, ack: U32, time: real)
    requires hear.Hear?
    ensures
      var after := ApplyAll(s, [hear] + (RouteLearned(s.connected, k, c) + OnAckValue(s.pendingAcks, s.connected, ack, time)));
      after.contacts == s.contacts[k := c] && after.pendingAcks == AckLedger.Acked(s.pendingAcks, ack)
  {
    var learned, acked := RouteLearned(s.connected, k, c), OnAckValue(s.pendingAcks, s.connected, ack, time);
    ApplyOne(s, hear);
    var s1 := Apply(s, hear);
    Runs.FoldAppend(Apply, s1, [Remember(k, c)], learned[1..]);
    ApplyOne(s1, Remember(k, c));
    var s2 := Apply(s1, Remember(k, c));
    TellingChangesNothing(s2, learned[1..]);
    assert learned == [Remember(k, c)] + learned[1..];
    assert ApplyAll(s1, learned) == s2;
    Runs.FoldAppend(Apply, s2, [TakeAck(ack)], acked[1..]);
    ApplyOne(s2, TakeAck(ack));
    TellingChangesNothing(Apply(s2, TakeAck(ack)), acked[1..]);
    assert acked == [TakeAck(ack)] + acked[1..];
    Runs.FoldAppend(Apply, s1, learned, acked);
    Runs.FoldAppend(Apply, s, [hear], learned + acked);
  }

  /**
   * Whatever way the text went, of any number of hops of any width: when the answer comes
   * home, the sender knows exactly that way, and the ACK it carries took the oldest
   * text waiting for it.
   */
  lemma SenderLearns(a: Config, b: Config, s: State, f: seq<byte>, hops: seq<Hop>, width: nat,
                     salt: byte, home: RxPacket, spice: byte)
    requires 14 <= |f| && Travelled(hops, width) && a.ackHash == b.ackHash && b.me in s.contacts
    requires home.payload == Answer(a, b, f, hops, salt) && !Dedup.Recent(s.seen, KeyOf(home), home.time)
    ensures
      var after := Step(a, s, Receive(home, spice));
      && b.me in after.contacts
      && after.contacts[b.me].outPathLen == Packed(hops) && after.contacts[b.me].outPath == Flatten(hops)
      && (forall k :: k != b.me ==> (k in after.contacts <==> k in s.contacts) && (k in s.contacts ==> after.contacts[k] == s.contacts[k]))
      && after.pendingAcks == AckLedger.Acked(s.pendingAcks, TextAck(a, f))
  {
    var hear := Hear(KeyOf(home), home.time);
    var c := s.contacts[b.me].(outPathLen := Packed(hops), outPath := Flatten(hops), lastMod := home.time);
    AnswerIsRead(a, b, Apply(s, hear), f, hops, width, salt, home);
    LearningEffects(s, hear, b.me, c, TextAck(a, f), home.time);
  }

  // ----- the next text

  /**
   * With that way known, the next text goes direct over it, at the width of its hashes; unless the way
   * is 63 hops of 4 bytes, whose length byte means "unknown": then, and only then, it floods again.
   */
  lemma NextTextRouted(cfg: Config, s: State, f: seq<byte>, k: Key, hops: seq<Hop>, width: nat)
    requires AsksForText(cfg, s, f, k) && Travelled(hops, width)
    requires s.contacts[k].outPathLen == Packed(hops) && s.contacts[k].outPath == Flatten(hops)
    ensures
      var packet := Routed(s.contacts[k], TextPayload(cfg, k, f), FloodWidth(s));
      && (packet.direct <==> !(|hops| == 63 && width == 4))
      && (packet.direct ==> packet.path == Flatten(hops) && |packet.path| == |hops| * width)
      && (packet.direct && hops != [] ==> packet.width == width)
  {
    PackedReads(hops, width);
  }

  /** A way of 63 hops with 4-byte hashes: learned, and yet the next text floods. */
  lemma LongestWideWayIsForgotten(cfg: Config, s: State, f: seq<byte>, k: Key)
    requires AsksForText(cfg, s, f, k)
    requires s.contacts[k].outPathLen == Packed(seq(63, _ => [1, 2, 3, 4]))
    ensures !Routed(s.contacts[k], TextPayload(cfg, k, f), FloodWidth(s)).direct
  {}

  // ----- the whole exchange, anywhere in two runs

  /** In the state the blocks before it led to, the node answers event i with block i; every execution does so throughout. */
  ghost predicate Answers(cfg: Config, s: State, events: seq<Event>, blocks: seq<seq<Effect>>, i: nat) {
    i < |events| == |blocks| && blocks[i] == Decide(cfg, StateAt(s, blocks, i), events[i])
  }

  lemma ExecutionAnswers(cfg: Config, s: State, events: seq<Event>, blocks: seq<seq<Effect>>, i: nat)
    requires Execution(cfg, s, events, blocks) && i < |events|
    ensures Answers(cfg, s, events, blocks, i)
  {}

  /** What the sender a does in its run: event i floods the text f to b, event j brings b's answer back. */
  ghost predicate SenderRun(a: Config, s: State, events: seq<Event>, blocks: seq<seq<Effect>>, i: nat, j: nat,
                            f: seq<byte>, to: Key, home: RxPacket)
  {
    && s.pendingAcks == [] && i < j && Answers(a, s, events, blocks, i) && Answers(a, s, events, blocks, j)
    && events[i].TextCommand? && events[i].f == f && AsksForText(a, StateAt(s, blocks, i), f, to)
    && StateAt(s, blocks, i).contacts[to].outPathLen == UNKNOWN_PATH
    && events[j].Receive? && events[j].packet == home
    && to in StateAt(s, blocks, j).contacts
    && !Dedup.Recent(StateAt(s, blocks, j).seen, KeyOf(home), home.time)
  }

  /** The effects of the events from lo up to hi. */
  function Between<E>(blocks: seq<seq<E>>, lo: nat, hi: nat): seq<E>
    requires lo <= hi <= |blocks|
  {
    Runs.Joined(blocks[lo..hi], hi - lo)
  }

  /** Among these effects the hash is not heard, and fewer than 32 texts are sent. */
  ghost predicate Unacknowledged(es: seq<Effect>, ack: U32) {
    var acks := NodeRuns.AckEvents(es);
    && (forall m :: 0 <= m < |acks| && acks[m].AckHeard? ==> acks[m].ack != ack)
    && AckLedger.TextsBetween(acks, 0, |acks|) < 32
  }

  lemma {:induction false} JoinedSplits<E>(blocks: seq<seq<E>>, lo: nat, hi: nat)
    requires lo <= hi <= |blocks|
    ensures Runs.Joined(blocks, hi) == Runs.Joined(blocks, lo) + Between(blocks, lo, hi)
  {
    if lo < hi {
      JoinedSplits(blocks, lo, hi - 1);
      assert blocks[lo..hi] == blocks[lo..hi - 1] + [blocks[hi - 1]];
      Runs.JoinedPrefix(blocks[lo..hi - 1], [blocks[hi - 1]], hi - 1 - lo);
      ConcatAssoc(Runs.Joined(blocks, lo), Between(blocks, lo, hi - 1), blocks[hi - 1]);
    }
  }

  lemma {:induction false} TextsShifted(a: seq<AckLedger.Event>, b: seq<AckLedger.Event>, n: nat)
    requires n <= |b|
    ensures AckLedger.TextsBetween(a + b, |a|, |a| + n) == AckLedger.TextsBetween(b, 0, n)
  {
    if n != 0 {
      TextsShifted(a, b, n - 1);
    }
  }

  /** The text sent at event i is the last the ledger saw up to then. */
  lemma TextInLedger(a: Config, s: State, f: seq<byte>, k: Key, now: real, front: seq<Effect>)
    requires AsksForText(a, s, f, k)
    ensures NodeRuns.AckEvents(front + OnText(a, s, f, now))
         == NodeRuns.AckEvents(front) + [AckLedger.TextSent(TextAck(a, f), now)]
  {
    var es := OnText(a, s, f, now);
    Runs.CollectAppend(NodeRuns.AckEventOf, front, es);
    assert es == [es[0]] + ([es[1]] + es[2..]);
    Runs.CollectAppend(NodeRuns.AckEventOf, [es[0]], [es[1]] + es[2..]);
    Runs.CollectAppend(NodeRuns.AckEventOf, [es[1]], es[2..]);
    Runs.CollectOne(NodeRuns.AckEventOf, es[0]);
    Runs.CollectOne(NodeRuns.AckEventOf, es[1]);
    Runs.CollectNone(NodeRuns.AckEventOf, es[2..]);
  }

  lemma TextWaits(acks: seq<AckLedger.Event>, sent: nat)
    requires sent < |acks| && acks[sent].TextSent?
    requires forall m :: sent < m < |acks| && acks[m].AckHeard? ==> acks[m].ack != acks[sent].ack
    requires AckLedger.TextsBetween(acks, sent + 1, |acks|) < 32
    ensures AckLedger.Awaited(NodeRuns.Ledger(acks), acks[sent].ack)
  {
    AckLedger.WaitsFor32Texts(acks, sent, |acks|);
  }

  lemma LaterUnheard(head: seq<AckLedger.Event>, later: seq<AckLedger.Event>, all: seq<AckLedger.Event>, ack: U32)
    requires all == head + later
    requires forall m :: 0 <= m < |later| && later[m].AckHeard? ==> later[m].ack != ack
    ensures forall m :: |head| <= m < |all| && all[m].AckHeard? ==> all[m].ack != ack
  {
    forall m | |head| <= m < |all| && all[m].AckHeard?
      ensures all[m].ack != ack
    {
      assert all[m] == later[m - |head|];
    }
  }

  lemma LedgerKeeps(before: seq<AckLedger.Event>, text: AckLedger.Event, later: seq<AckLedger.Event>,
                    head: seq<AckLedger.Event>, all: seq<AckLedger.Event>)
    requires text.TextSent? && head == before + [text] && all == head + later
    requires forall m :: 0 <= m < |later| && later[m].AckHeard? ==> later[m].ack != text.ack
    requires AckLedger.TextsBetween(later, 0, |later|) < 32
    ensures AckLedger.Awaited(NodeRuns.Ledger(all), text.ack)
  {
    TextsShifted(head, later, |later|);
    LaterUnheard(head, later, all, text.ack);
    assert all[|before|] == head[|before|] == text;
    TextWaits(all, |before|);
  }

  /** A text sent after some effects, and before others that neither hear its hash nor send 32 texts, is waited for. */
  lemma TextAwaited(a: Config, s: State, front: seq<Effect>, f: seq<byte>, k: Key, now: real, later: seq<Effect>)
    requires s.pendingAcks == [] && AsksForText(a, ApplyAll(s, front), f, k) && Unacknowledged(later, TextAck(a, f))
    ensures
      var all := (front + OnText(a, ApplyAll(s, front), f, now)) + later;
      AckLedger.Awaited(ApplyAll(s, all).pendingAcks, TextAck(a, f))
  {
    var es := front + OnText(a, ApplyAll(s, front), f, now);
    TextInLedger(a, ApplyAll(s, front), f, k, now, front);
    Runs.CollectAppend(NodeRuns.AckEventOf, es, later);
    NodeRuns.PendingIsLedger(s, es + later);
    LedgerKeeps(NodeRuns.AckEvents(front), AckLedger.TextSent(TextAck(a, f), now), NodeRuns.AckEvents(later),
                NodeRuns.AckEvents(es), NodeRuns.AckEvents(es + later));
  }

  /** The text sent in block i is still waited for after block j. */
  lemma StillAwaited(a: Config, s: State, blocks: seq<seq<Effect>>, i: nat, j: nat, f: seq<byte>, k: Key, now: real)
    requires i < j <= |blocks| && s.pendingAcks == []
    requires AsksForText(a, StateAt(s, blocks, i), f, k) && blocks[i] == OnText(a, StateAt(s, blocks, i), f, now)
    requires Unacknowledged(Between(blocks, i + 1, j), TextAck(a, f))
    ensures AckLedger.Awaited(StateAt(s, blocks, j).pendingAcks, TextAck(a, f))
  {
    TextAwaited(a, s, Runs.Joined(blocks, i), f, k, now, Between(blocks, i + 1, j));
    JoinedSplits(blocks, i + 1, j);
  }

  /** Taking the only entry with a hash leaves none. */
  lemma LastTaken(acks: seq<AckLedger.Event>, ack: U32)
    requires AckLedger.SentWith(acks, |acks|, ack) == 1 && AckLedger.Awaited(NodeRuns.Ledger(acks), ack)
    ensures !AckLedger.Awaited(AckLedger.Acked(NodeRuns.Ledger(acks), ack), ack)
  {
    AckLedger.AcksConserved(acks, |acks|, ack);
    AckLedger.WaitingAcked(NodeRuns.Ledger(acks), ack, ack);
    NoneWaiting(AckLedger.Acked(NodeRuns.Ledger(acks), ack), ack);
  }

  lemma {:induction false} NoneWaiting(q: seq<AckLedger.PendingAck>, ack: U32)
    requires AckLedger.Waiting(q, ack) == 0
    ensures !AckLedger.Awaited(q, ack)
  {
    if q != [] {
      NoneWaiting(q[1..], ack);
    }
  }

  /** An awaited ACK is pushed to a connected app, once. */
  lemma ConfirmedOnce(s: State, hear: Effect, k: Key, c: Contact, ack: U32, time: real)
    requires hear.Hear? && s.connected && AckLedger.Awaited(s.pendingAcks, ack)
    ensures NodeRuns.Confirmed([hear] + (RouteLearned(s.connected, k, c) + OnAckValue(s.pendingAcks, s.connected, ack, time))) == [ack]
  {
    var acked := OnAckValue(s.pendingAcks, s.connected, ack, time);
    var quiet := [hear] + RouteLearned(s.connected, k, c);
    assert quiet + acked == [hear] + (RouteLearned(s.connected, k, c) + acked);
    assert quiet + acked == (quiet + [acked[0]]) + [acked[1]];
    Runs.CollectNone(NodeRuns.ConfirmedBy, quiet + [acked[0]]);
    Runs.CollectLast(NodeRuns.ConfirmedBy, quiet + [acked[0]], acked[1]);
  }

  /** Neither forgets the contact nor gives it another route. */
  predicate LeavesRoute(e: Effect, k: Key, pathLen: byte, path: seq<byte>) {
    && (e.Forget? ==> e.who != k)
    && (e.Remember? && e.who == k ==> e.contact.outPathLen == pathLen && e.contact.outPath == path)
  }

  predicate HasRoute(s: State, k: Key, pathLen: byte, path: seq<byte>) {
    k in s.contacts && s.contacts[k].outPathLen == pathLen && s.contacts[k].outPath == path
  }

  predicate AllLeaveRoute(es: seq<Effect>, k: Key, pathLen: byte, path: seq<byte>) {
    forall e :: e in es ==> LeavesRoute(e, k, pathLen, path)
  }

  lemma {:induction false} RouteKept(s: State, es: seq<Effect>, k: Key, pathLen: byte, path: seq<byte>)
    requires HasRoute(s, k, pathLen, path) && AllLeaveRoute(es, k, pathLen, path)
    ensures HasRoute(ApplyAll(s, es), k, pathLen, path)
    decreases |es|
  {
    if es != [] {
      assert LeavesRoute(es[0], k, pathLen, path);
      EffectKeepsRoute(s, es[0], k, pathLen, path);
      RouteKept(Apply(s, es[0]), es[1..], k, pathLen, path);
    }
  }

  lemma EffectKeepsRoute(s: State, e: Effect, k: Key, pathLen: byte, path: seq<byte>)
    requires HasRoute(s, k, pathLen, path) && LeavesRoute(e, k, pathLen, path)
    ensures HasRoute(Apply(s, e), k, pathLen, path)
  {}

  /** A route lasts until an effect changes it. */
  lemma RouteLasts(s: State, blocks: seq<seq<Effect>>, lo: nat, hi: nat, k: Key, pathLen: byte, path: seq<byte>)
    requires lo <= hi <= |blocks| && HasRoute(StateAt(s, blocks, lo), k, pathLen, path)
    requires AllLeaveRoute(Between(blocks, lo, hi), k, pathLen, path)
    ensures HasRoute(StateAt(s, blocks, hi), k, pathLen, path)
  {
    JoinedSplits(blocks, lo, hi);
    Runs.FoldAppend(Apply, s, Runs.Joined(blocks, lo), Between(blocks, lo, hi));
    RouteKept(StateAt(s, blocks, lo), Between(blocks, lo, hi), k, pathLen, path);
  }

  /** The next text at any state with this route. */
  lemma TextOverRoute(a: Config, s: State, f: seq<byte>, k: Key, now: real, hops: seq<Hop>, width: nat)
    requires Travelled(hops, width) && AsksForText(a, s, f, k) && HasRoute(s, k, Packed(hops), Flatten(hops))
    ensures GoesTheWay(a, s, f, k, now, hops, width)
  {
    TextGoesOut(a, s, f, k, now);
    NextTextRouted(a, s, f, k, hops, width);
  }

  /** The packet enqueued goes direct over these hops, unless their length byte reads as "unknown". */
  ghost predicate GoesTheWay(a: Config, s: State, f: seq<byte>, k: Key, now: real, hops: seq<Hop>, width: nat)
    requires AsksForText(a, s, f, k)
  {
    var packet := Routed(s.contacts[k], TextPayload(a, k, f), FloodWidth(s));
    && Step(a, s, TextCommand(f, now)).txQueue == s.txQueue + [packet]
    && (packet.direct <==> !(|hops| == 63 && width == 4))
    && (packet.direct ==> packet.path == Flatten(hops) && (hops != [] ==> packet.width == width))
  }

  /** Event m of b's run brings the text over these hops, for the first time, and the answer can be built. */
  ghost predicate ReceiverRun(a: Config, b: Config, sb: State, hears: seq<Event>, does: seq<seq<Effect>>, m: nat,
                              f: seq<byte>, hops: seq<Hop>, salt: byte)
    requires 14 <= |f|
  {
    && Answers(b, sb, hears, does, m) && hears[m].Receive? && hears[m].salt == salt
    && var p, s := hears[m].packet, StateAt(sb, does, m);
    && p == Arriving(a, b, f, hops, p.time) && a.me in s.contacts && !Dedup.Recent(s.seen, KeyOf(p), p.time)
    && b.fits(Reply(b, FloodWidth(s), a.me, p, salt))
  }

  /** The ACK was still waited for, takes its text, and is told to a connected app. */
  ghost predicate Settled(sa: State, did: seq<seq<Effect>>, j: nat, ack: U32)
    requires j < |did|
  {
    var before, after := StateAt(sa, did, j), StateAt(sa, did, j + 1);
    && AckLedger.Awaited(before.pendingAcks, ack)
    && after.pendingAcks == AckLedger.Acked(before.pendingAcks, ack)
    && (before.connected ==> NodeRuns.Confirmed(did[j]) == [ack])
  }

  /** When the answer is home: the route, the ACK, and what the app is told. */
  ghost predicate Learned(sa: State, did: seq<seq<Effect>>, j: nat, to: Key, hops: seq<Hop>, ack: U32)
    requires j < |did|
  {
    HasRoute(StateAt(sa, did, j + 1), to, Packed(hops), Flatten(hops)) && Settled(sa, did, j, ack)
  }

  /** If the hash was that of one text only, nothing waits for it after event j. */
  ghost predicate NothingElseWaits(sa: State, did: seq<seq<Effect>>, j: nat, ack: U32)
    requires j < |did|
  {
    var acks := NodeRuns.AckEvents(Runs.Joined(did, j));
    AckLedger.SentWith(acks, |acks|, ack) == 1 ==> !AckLedger.Awaited(StateAt(sa, did, j + 1).pendingAcks, ack)
  }

  lemma OneTextOneAck(sa: State, did: seq<seq<Effect>>, j: nat, ack: U32)
    requires j < |did| && sa.pendingAcks == [] && Settled(sa, did, j, ack)
    ensures NothingElseWaits(sa, did, j, ack)
  {
    var acks := NodeRuns.AckEvents(Runs.Joined(did, j));
    NodeRuns.PendingIsLedger(sa, Runs.Joined(did, j));
    if AckLedger.SentWith(acks, |acks|, ack) == 1 {
      LastTaken(acks, ack);
    }
  }

  /** Any text to b after event j, as long as b's route was left alone since, goes direct over these hops. */
  ghost predicate LaterTextsGo(a: Config, sa: State, did: seq<seq<Effect>>, j: nat, to: Key, hops: seq<Hop>, width: nat)
    requires j < |did|
  {
    forall later: nat, f, now | j < later <= |did| && AsksForText(a, StateAt(sa, did, later), f, to)
      && AllLeaveRoute(Between(did, j + 1, later), to, Packed(hops), Flatten(hops)) ::
      GoesTheWay(a, StateAt(sa, did, later), f, to, now, hops, width)
  }

  lemma LaterTexts(a: Config, sa: State, did: seq<seq<Effect>>, j: nat, to: Key, hops: seq<Hop>, width: nat, ack: U32)
    requires j < |did| && Travelled(hops, width) && Learned(sa, did, j, to, hops, ack)
    ensures LaterTextsGo(a, sa, did, j, to, hops, width)
  {
    forall later: nat, f, now | j < later <= |did| && AsksForText(a, StateAt(sa, did, later), f, to)
      && AllLeaveRoute(Between(did, j + 1, later), to, Packed(hops), Flatten(hops))
      ensures GoesTheWay(a, StateAt(sa, did, later), f, to, now, hops, width)
    {
      RouteLasts(sa, did, j + 1, later, to, Packed(hops), Flatten(hops));
      TextOverRoute(a, StateAt(sa, did, later), f, to, now, hops, width);
    }
  }

  /**
   * Two runs. In that of a, event i floods a text to b and event j brings the answer home;
   * in that of b, event m hears the text over some hops. Then the packets in question are those
   * the two nodes enqueue; after event j, a holds exactly the path the text travelled; the text was
   * still waited for, the app is told of the delivery, and if no other text had its hash,
   * nothing waits for it any more; and any later text to b, until something changes b's route, goes
   * direct over that path, unless 63 hops of 4 bytes read as "unknown".
   */
  lemma FloodedTextTeachesTheWay(
    a: Config, sa: State, asks: seq<Event>, did: seq<seq<Effect>>, i: nat, j: nat,
    b: Config, sb: State, hears: seq<Event>, does: seq<seq<Effect>>, m: nat,
    f: seq<byte>, hops: seq<Hop>, width: nat, salt: byte, home: RxPacket)
    requires 14 <= |f| && Travelled(hops, width) && a.ackHash == b.ackHash
    requires SenderRun(a, sa, asks, did, i, j, f, b.me, home) && home.payload == Answer(a, b, f, hops, salt)
    requires Unacknowledged(Between(did, i + 1, j), TextAck(a, f))
    requires ReceiverRun(a, b, sb, hears, does, m, f, hops, salt)
    ensures
      var s := StateAt(sa, did, i);
      StateAt(sa, did, i + 1).txQueue
      == s.txQueue + [TxPacket(false, hears[m].packet.payload, [], FloodWidth(s))]
    ensures
      var s := StateAt(sb, does, m);
      StateAt(sb, does, m + 1).txQueue == s.txQueue + [TxPacket(false, home.payload, [], FloodWidth(s))]
    ensures Learned(sa, did, j, b.me, hops, TextAck(a, f))
    ensures NothingElseWaits(sa, did, j, TextAck(a, f))
    ensures LaterTextsGo(a, sa, did, j, b.me, hops, width)
  {
    Runs.StateAtNext(Apply, sa, did, i);
    TextGoesOut(a, StateAt(sa, did, i), f, b.me, asks[i].now);
    Runs.StateAtNext(Apply, sb, does, m);
    ReceiverAnswers(a, b, StateAt(sb, does, m), f, hops, hears[m].packet.time, salt);
    Runs.StateAtNext(Apply, sa, did, j);
    StillAwaited(a, sa, did, i, j, f, b.me, asks[i].now);
    HomeComing(a, b, StateAt(sa, did, j), f, hops, width, salt, home, asks[j].salt);
    OneTextOneAck(sa, did, j, TextAck(a, f));
    LaterTexts(a, sa, did, j, b.me, hops, width, TextAck(a, f));
  }

  lemma HomeComing(a: Config, b: Config, s: State, f: seq<byte>, hops: seq<Hop>, width: nat,
                   salt: byte, home: RxPacket, spice: byte)
    requires 14 <= |f| && Travelled(hops, width) && a.ackHash == b.ackHash && b.me in s.contacts
    requires home.payload == Answer(a, b, f, hops, salt) && !Dedup.Recent(s.seen, KeyOf(home), home.time)
    ensures
      var after := Step(a, s, Receive(home, spice));
      && HasRoute(after, b.me, Packed(hops), Flatten(hops))
      && after.pendingAcks == AckLedger.Acked(s.pendingAcks, TextAck(a, f))
    ensures s.connected && AckLedger.Awaited(s.pendingAcks, TextAck(a, f)) ==>
      NodeRuns.Confirmed(Decide(a, s, Receive(home, spice))) == [TextAck(a, f)]
  {
    SenderLearns(a, b, s, f, hops, width, salt, home, spice);
    if s.connected && AckLedger.Awaited(s.pendingAcks, TextAck(a, f)) {
      var hear := Hear(KeyOf(home), home.time);
      var c := s.contacts[b.me].(outPathLen := Packed(hops), outPath := Flatten(hops), lastMod := home.time);
      AnswerIsRead(a, b, Apply(s, hear), f, hops, width, salt, home);
      ConfirmedOnce(s, hear, b.me, c, TextAck(a, f), home.time);
    }
  }

  // ----- a text that came direct

  /** The text as it arrives over a known route. */
  function ArrivingDirect(sender: Config, receiver: Config, f: seq<byte>, hops: seq<Hop>, time: real): RxPacket
    requires 14 <= |f|
  {
    RxPacket(false, TextPayload(sender, receiver.me, f), hops, time)
  }

  /** It is queued for the app and answered with a plain ACK, whose first four bytes are the hash the sender waits for. */
  lemma ReceiverAcknowledges(a: Config, b: Config, s: State, f: seq<byte>, hops: seq<Hop>, time: real, salt: byte)
    returns (bytes: seq<byte>)
    requires 14 <= |f| && a.me in s.contacts && a.ackHash == b.ackHash
    requires
      var p := ArrivingDirect(a, b, f, hops, time);
      !Dedup.Recent(s.seen, KeyOf(p), p.time) && b.fits(Reply(b, FloodWidth(s), a.me, p, salt))
    ensures |bytes| == 6 && FromLe32(bytes[..4]) == TextAck(a, f) && bytes[4..] == [f[2], salt]
    ensures
      var p := ArrivingDirect(a, b, f, hops, time);
      var after := Step(b, s, Receive(p, salt));
      && after.txQueue == s.txQueue + [TxPacket(false, Ack(bytes), [], FloodWidth(s))]
      && after.inbox == Queues.Kept(s.inbox + [ContactMsg(a.me, |hops|, FromLe32(f[3..7]), CString(f[13..]))])
  {
    var p := ArrivingDirect(a, b, f, hops, time);
    var heard := Apply(s, Hear(KeyOf(p), p.time));
    bytes := Le32(TextAck(a, f)) + [f[2], salt];
    assert bytes[..4] == Le32(TextAck(a, f));
    Le32RoundTrip(TextAck(a, f));
    SharedCommutes(a.me, b.me);
    SenderIsUnique(b, s, a.me);
    var reply := TxPacket(false, Ack(bytes), [], FloodWidth(s));
    var touched := Remember(a.me, s.contacts[a.me].(lastMod := p.time));
    var message := ContactMsg(a.me, |p.hops|, p.payload.msg.timestamp, p.payload.msg.text);
    assert OnTextHeard(b, heard, p, salt)
        == [touched] + (QueueForApp(s.connected, message) + [Mark(reply.payload, p.time), Transmit(reply)]);
    AnswerEffects(s, Hear(KeyOf(p), p.time), touched, message, Mark(reply.payload, p.time), reply);
  }

  /** A plain ACK, heard for the first time, takes the oldest text waiting for its hash and is told to a connected app. */
  lemma SenderHearsAck(a: Config, s: State, bytes: seq<byte>, home: RxPacket, spice: byte, ack: U32)
    requires home.payload == Ack(bytes) && 4 <= |bytes| && FromLe32(bytes[..4]) == ack
    requires !Dedup.Recent(s.seen, KeyOf(home), home.time)
    ensures
      var after := Step(a, s, Receive(home, spice));
      after.contacts == s.contacts && after.txQueue == s.txQueue && after.pendingAcks == AckLedger.Acked(s.pendingAcks, ack)
    ensures NodeRuns.Confirmed(Decide(a, s, Receive(home, spice)))
         == if s.connected && AckLedger.Awaited(s.pendingAcks, ack) then [ack] else []
  {
    var hear := Hear(KeyOf(home), home.time);
    var acked := OnAckValue(s.pendingAcks, s.connected, ack, home.time);
    assert Decide(a, s, Receive(home, spice)) == [hear] + acked;
    AckEffects(s, hear, acked, ack, home.time);
    assert [hear] + acked == [hear, acked[0]] + acked[1..];
    Runs.CollectAppend(NodeRuns.ConfirmedBy, [hear, acked[0]], acked[1..]);
    Runs.CollectNone(NodeRuns.ConfirmedBy, [hear, acked[0]]);
    if |acked| == 2 {
      assert acked[1..] == [acked[1]];
      Runs.CollectOne(NodeRuns.ConfirmedBy, acked[1]);
    } else {
      assert acked[1..] == [];
    }
  }

  lemma AckEffects(s: State, hear: Effect, acked: seq<Effect>, ack: U32, time: real)
    requires hear.Hear? && acked == OnAckValue(s.pendingAcks, s.connected, ack, time)
    ensures
      var after := ApplyAll(s, [hear] + acked);
      after.contacts == s.contacts && after.txQueue == s.txQueue && after.pendingAcks == AckLedger.Acked(s.pendingAcks, ack)
  {
    assert [hear] + acked == [hear, TakeAck(ack)] + acked[1..];
    ApplyPair(s, hear, TakeAck(ack));
    Runs.FoldAppend(Apply, s, [hear, TakeAck(ack)], acked[1..]);
    TellingChangesNothing(Apply(Apply(s, hear), TakeAck(ack)), acked[1..]);
  }

  /**
   * Two runs. In that of a, event i sends a text to b over a known route and event j brings b's ACK, which b
   * enqueues at event m of its run when it hears the text. Then a still waited for it, the ACK takes the oldest
   * text with its hash, a connected app is told, and if no other text had the hash, nothing waits for it any more.
   */
  lemma DirectTextIsConfirmed(
    a: Config, sa: State, asks: seq<Event>, did: seq<seq<Effect>>, i: nat, j: nat,
    b: Config, sb: State, hears: seq<Event>, does: seq<seq<Effect>>, m: nat,
    f: seq<byte>, hops: seq<Hop>, salt: byte, home: RxPacket) returns (bytes: seq<byte>)
    requires 14 <= |f| && a.ackHash == b.ackHash && sa.pendingAcks == [] && i < j < |did|
    requires Answers(a, sa, asks, did, i) && asks[i].TextCommand? && asks[i].f == f && AsksForText(a, StateAt(sa, did, i), f, b.me)
    requires StateAt(sa, did, i).contacts[b.me].outPathLen != UNKNOWN_PATH
    requires Unacknowledged(Between(did, i + 1, j), TextAck(a, f))
    requires Answers(b, sb, hears, does, m) && hears[m].Receive? && hears[m].salt == salt
    requires
      var p, s := hears[m].packet, StateAt(sb, does, m);
      && p == ArrivingDirect(a, b, f, hops, p.time) && a.me in s.contacts && !Dedup.Recent(s.seen, KeyOf(p), p.time)
      && b.fits(Reply(b, FloodWidth(s), a.me, p, salt))
    ensures
      var s, c := StateAt(sa, did, i), StateAt(sa, did, i).contacts[b.me];
      StateAt(sa, did, i + 1).txQueue
      == s.txQueue + [TxPacket(true, hears[m].packet.payload, c.outPath, RouteWidth(c.outPathLen))]
    ensures
      var s := StateAt(sb, does, m);
      StateAt(sb, does, m + 1).txQueue == s.txQueue + [TxPacket(false, Ack(bytes), [], FloodWidth(s))]
    ensures
      Answers(a, sa, asks, did, j) && asks[j].Receive? && asks[j].packet == home && home.payload == Ack(bytes)
      && !Dedup.Recent(StateAt(sa, did, j).seen, KeyOf(home), home.time) ==>
        Settled(sa, did, j, TextAck(a, f)) && NothingElseWaits(sa, did, j, TextAck(a, f))
  {
    Runs.StateAtNext(Apply, sa, did, i);
    TextGoesOut(a, StateAt(sa, did, i), f, b.me, asks[i].now);
    Runs.StateAtNext(Apply, sb, does, m);
    bytes := ReceiverAcknowledges(a, b, StateAt(sb, does, m), f, hops, hears[m].packet.time, salt);
    if Answers(a, sa, asks, did, j) && asks[j].Receive? && asks[j].packet == home && home.payload == Ack(bytes)
      && !Dedup.Recent(StateAt(sa, did, j).seen, KeyOf(home), home.time) {
      Runs.StateAtNext(Apply, sa, did, j);
      StillAwaited(a, sa, did, i, j, f, b.me, asks[i].now);
      SenderHearsAck(a, StateAt(sa, did, j), bytes, home, asks[j].salt, TextAck(a, f));
      OneTextOneAck(sa, did, j, TextAck(a, f));
    }
  }

  // ----- such runs exist

  /** A node that knows one contact, without a way to it. */
  function Knowing(k: Key): State {
    State(map[k := Contact(1, "", 0.0, UNKNOWN_PATH, [], UNKNOWN_PATH, [])], [], map[], [], [], [], None, [], true, 0)
  }

  lemma OnlyMatch(k: Key)
    ensures FirstMatch(Knowing(k).contacts, k.prefix6) == Some(k)
  {
    assert k in Named(Knowing(k).contacts, k.prefix6);
  }

  lemma NothingBetween(blocks: seq<seq<Effect>>, i: nat, ack: U32)
    requires i <= |blocks|
    ensures Unacknowledged(Between(blocks, i, i), ack)
  {
    assert Between(blocks, i, i) == [];
    assert NodeRuns.AckEvents([]) == [];
  }

  /** For any way and any two nodes that can build these two packets, there are runs as in FloodedTextTeachesTheWay. */
  lemma ExchangeIsPossible(a: Config, b: Config, f: seq<byte>, hops: seq<Hop>, width: nat, salt: byte, time: real)
    returns (asks: seq<Event>, did: seq<seq<Effect>>, hears: seq<Event>, does: seq<seq<Effect>>, home: RxPacket)
    requires 14 <= |f| && f[1] == 0 && FromBe(f[7..13]) == b.me.prefix6 && Travelled(hops, width)
    requires a.fits(TxPacket(false, TextPayload(a, b.me, f), [], 1))
    requires b.fits(Reply(b, 1, a.me, Arriving(a, b, f, hops, time), salt))
    ensures home.payload == Answer(a, b, f, hops, salt)
    ensures SenderRun(a, Knowing(b.me), asks, did, 0, 1, f, b.me, home)
    ensures Unacknowledged(Between(did, 1, 1), TextAck(a, f))
    ensures Execution(a, Knowing(b.me), asks, did) && Execution(b, Knowing(a.me), hears, does)
    ensures ReceiverRun(a, b, Knowing(a.me), hears, does, 0, f, hops, salt)
  {
    var sa, sb := Knowing(b.me), Knowing(a.me);
    assert FloodWidth(sa) == 1 && FloodWidth(sb) == 1;
    home := RxPacket(true, Answer(a, b, f, hops, salt), [], time);
    asks := [TextCommand(f, time), Receive(home, salt)];
    did := NodeRuns.ExecutionExists(a, sa, asks);
    hears := [Receive(Arriving(a, b, f, hops, time), salt)];
    does := NodeRuns.ExecutionExists(b, sb, hears);
    OnlyMatch(b.me);
    Runs.StateAtNext(Apply, sa, did, 0);
    TextGoesOut(a, sa, f, b.me, time);
    NothingBetween(did, 1, TextAck(a, f));
  }
}
