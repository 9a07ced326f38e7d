/** What a single command or packet promises: where requests go, how they are answered, what an advert leaves. */
module NodeLaws {
  import opened Prelude
  import opened NodeSpec
  import AckLedger
  import Dedup
  import PathExchange
  import Queues
  import Runs

  // ----- requests go out

  /** The packet is enqueued and marked, the request remembered last of at most 16, and the app is given the answer. */
  ghost predicate Sent(s: State, after: State, told: seq<Frame>, packet: TxPacket, req: PendingReq, answer: Frame, now: real) {
    && after.txQueue == s.txQueue + [packet] && after.seen == s.seen[DedupKey(packet.payload, []) := now]
    && 1 <= |after.pendingReqs| <= 16 && after.pendingReqs[|after.pendingReqs| - 1] == req
    && (|s.pendingReqs| < 16 ==> after.pendingReqs == s.pendingReqs + [req])
    && after.contacts.Keys >= s.contacts.Keys && (forall k :: k in s.contacts ==> after.contacts[k] == s.contacts[k])
    && after.pendingAcks == s.pendingAcks && after.inbox == s.inbox && after.connected == s.connected
    && told == [answer]
  }

  ghost predicate Refused(s: State, after: State, told: seq<Frame>, code: int) {
    after == s && told == [RespErr(code)]
  }

  lemma RefusedIs(s: State, code: int)
    ensures Refused(s, ApplyAll(s, [Tell(RespErr(code))]), Told([Tell(RespErr(code))]), code)
  {
    PathExchange.ApplyOne(s, Tell(RespErr(code)));
    Runs.CollectOne(ToldBy, Tell(RespErr(code)));
  }

  lemma {:induction false} TrimmedLast<T>(q: seq<T>, t: T, limit: nat)
    requires 1 <= limit
    ensures
      var r := Trimmed(q + [t], limit);
      1 <= |r| <= limit && r[|r| - 1] == t && (|q| < limit ==> r == q + [t])
    decreases |q|
  {
    if limit < |q| + 1 {
      assert (q + [t])[1..] == q[1..] + [t];
      TrimmedLast(q[1..], t, limit);
    }
  }

  lemma ToldOne(a: Effect, b: Effect, c: Effect, answer: Frame)
    requires !a.Tell? && !b.Tell? && !c.Tell?
    ensures Told([a, b, c, Tell(answer)]) == [answer]
  {
    Runs.CollectNone(ToldBy, [a, b, c]);
    assert [a, b, c] + [Tell(answer)] == [a, b, c, Tell(answer)];
    Runs.CollectLast(ToldBy, [a, b, c], Tell(answer));
  }

  lemma SentIs(s: State, packet: TxPacket, req: PendingReq, answer: Frame, now: real)
    ensures
      var es := [Mark(packet.payload, now), Transmit(packet), AwaitReply(req), Tell(answer)];
      Sent(s, ApplyAll(s, es), Told(es), packet, req, answer, now)
    ensures
      var es := [Transmit(packet), Mark(packet.payload, now), AwaitReply(req), Tell(answer)];
      Sent(s, ApplyAll(s, es), Told(es), packet, req, answer, now)
  {
    var m, t, w := Mark(packet.payload, now), Transmit(packet), AwaitReply(req);
    TrimmedLast(s.pendingReqs, req, 16);
    ToldOne(m, t, w, answer);
    ToldOne(t, m, w, answer);
    Runs.FoldFour(Apply, s, m, t, w, Tell(answer));
    Runs.FoldFour(Apply, s, t, m, w, Tell(answer));
  }

  /** What a packet to a contact looks like: over its route if one is known, unless flooding is asked for. */
  function Expected(c: Contact, payload: Payload, flood: bool, floodWidth: int): TxPacket {
    if !flood && c.outPathLen != 255 then TxPacket(true, payload, c.outPath, c.outPathLen / 64 + 1)
    else TxPacket(false, payload, [], floodWidth)
  }

  lemma RequestGoesOut(cfg: Config, s: State, k: Key, body: seq<byte>, kind: Kind, forceFlood: bool, now: real)
    requires k in s.contacts
    ensures
      var payload := Request(FirstByte(k), FirstByte(cfg.me), Shared(cfg.me, k), Le32(Tag(now)) + body);
      var packet := Expected(s.contacts[k], payload, forceFlood, s.hashMode + 1);
      var es := OnRequest(cfg, s, k, body, kind, forceFlood, now);
      if cfg.fits(packet) then
        Sent(s, ApplyAll(s, es), Told(es), packet, PendingReq(kind, k, Tag(now), now),
             RespSent(!packet.direct, Tag(now), if packet.direct then 12000 else 30000), now)
      else Refused(s, ApplyAll(s, es), Told(es), 4)
  {
    var payload := Request(FirstByte(k), FirstByte(cfg.me), Shared(cfg.me, k), Le32(Tag(now)) + body);
    var packet := Expected(s.contacts[k], payload, forceFlood, s.hashMode + 1);
    RequestEffects(cfg, s, k, body, kind, forceFlood, now, payload, packet);
    SentIs(s, packet, PendingReq(kind, k, Tag(now), now), RespSent(!packet.direct, Tag(now), if packet.direct then 12000 else 30000), now);
    RefusedIs(s, 4);
  }

  lemma RequestEffects(cfg: Config, s: State, k: Key, body: seq<byte>, kind: Kind, forceFlood: bool, now: real,
                       payload: Payload, packet: TxPacket)
    requires k in s.contacts
    requires payload == Request(FirstByte(k), FirstByte(cfg.me), Shared(cfg.me, k), Le32(Tag(now)) + body)
    requires packet == Expected(s.contacts[k], payload, forceFlood, s.hashMode + 1)
    ensures packet.payload == payload
    ensures OnRequest(cfg, s, k, body, kind, forceFlood, now)
      == if cfg.fits(packet) then
        [ Transmit(packet), Mark(packet.payload, now), AwaitReply(PendingReq(kind, k, Tag(now), now)),
          Tell(RespSent(!packet.direct, Tag(now), if packet.direct then 12000 else 30000)) ]
      else [Tell(RespErr(4))]
  {}

  /** Commands to a contact that use the default width of one byte for a flood. */
  lemma ToContactGoesOut(cfg: Config, s: State, k: Key, payload: Payload, kind: Kind, now: real)
    requires k in s.contacts
    ensures
      var packet := Expected(s.contacts[k], payload, false, 1);
      var es := ToContact(cfg, s, k, payload, kind, now);
      if cfg.fits(packet) then
        Sent(s, ApplyAll(s, es), Told(es), packet, PendingReq(kind, k, Tag(now), now), RespSent(!packet.direct, 0, 20000), now)
      else Refused(s, ApplyAll(s, es), Told(es), 4)
  {
    var packet := Expected(s.contacts[k], payload, false, 1);
    SentIs(s, packet, PendingReq(kind, k, Tag(now), now), RespSent(!packet.direct, 0, 20000), now);
    RefusedIs(s, 4);
  }

  /** A login carries the time and at most 15 bytes of the password, up to its first zero. */
  lemma LoginGoesOut(cfg: Config, s: State, k: Key, body: seq<byte>, password: seq<byte>, now: real)
    requires k in s.contacts && password <= body && |password| <= 15 && 0 !in password
    requires |password| == 15 || |password| == |body| || body[|password|] == 0
    ensures
      var payload := AnonRequest(FirstByte(k), cfg.me, Shared(cfg.me, k), Le32(Tag(now)) + password);
      var packet := Expected(s.contacts[k], payload, false, 1);
      var es := OnRepeater(cfg, s, k, true, body, now);
      if cfg.fits(packet) then
        Sent(s, ApplyAll(s, es), Told(es), packet, PendingReq(Login, k, Tag(now), now), RespSent(!packet.direct, 0, 20000), now)
      else Refused(s, ApplyAll(s, es), Told(es), 4)
  {
    CStringIs(body, password);
    var c := CString(body);
    assert password == if 15 < |c| then c[..15] else c;
    ToContactGoesOut(cfg, s, k, AnonRequest(FirstByte(k), cfg.me, Shared(cfg.me, k), Le32(Tag(now)) + password), Login, now);
  }

  lemma {:induction false} CStringIs(body: seq<byte>, front: seq<byte>)
    requires front <= body && 0 !in front
    ensures front <= CString(body)
    ensures |front| == |body| || body[|front|] == 0 ==> CString(body) == front
  {
    if front != [] {
      assert body[0] == front[0] && front[0] in front;
      assert front[1..] <= body[1..];
      CStringIs(body[1..], front[1..]);
      assert front == [front[0]] + front[1..];
    }
  }

  /** A request to an unknown node makes it a contact; it always goes direct, over the route known or with no hop. */
  lemma AnonGoesOut(cfg: Config, s: State, k: Key, body: seq<byte>, now: real)
    ensures
      var payload := AnonRequest(FirstByte(k), cfg.me, Shared(cfg.me, k), Le32(Tag(now)) + body);
      var packet :=
        if k !in s.contacts || s.contacts[k].outPathLen == 255 then TxPacket(true, payload, [], 1)
        else TxPacket(true, payload, s.contacts[k].outPath, s.contacts[k].outPathLen / 64 + 1);
      var es := OnAnon(cfg, s, k, body, now);
      var after := ApplyAll(s, es);
      && k in after.contacts && (k !in s.contacts ==> after.contacts[k].outPathLen == 0 && after.contacts[k].outPath == [])
      && (if cfg.fits(packet) then
            Sent(s, after, Told(es), packet, PendingReq(Anon, k, Tag(now), now), RespSent(false, Tag(now), 20000), now)
          else Told(es) == [RespErr(4)])
  {
    var c := if k in s.contacts then s.contacts[k] else Contact(0, "", now, 0, [], UNKNOWN_PATH, []);
    var added := if k in s.contacts then [] else [Remember(k, c)];
    var payload := AnonRequest(FirstByte(k), cfg.me, Shared(cfg.me, k), Le32(Tag(now)) + body);
    var packet := if c.outPathLen == 255 then TxPacket(true, payload, [], 1)
                  else TxPacket(true, payload, c.outPath, c.outPathLen / 64 + 1);
    var req, answer := PendingReq(Anon, k, Tag(now), now), RespSent(false, Tag(now), 20000);
    var rest := if cfg.fits(packet) then [Mark(packet.payload, now), Transmit(packet), AwaitReply(req), Tell(answer)] else [Tell(RespErr(4))];
    assert OnAnon(cfg, s, k, body, now) == added + rest;
    SentAdding(cfg, s, k, c, added, rest, packet, req, answer, now);
  }

  lemma SentAdding(cfg: Config, s: State, k: Key, c: Contact, added: seq<Effect>, rest: seq<Effect>, packet: TxPacket,
                   req: PendingReq, answer: Frame, now: real)
    requires added == if k in s.contacts then [] else [Remember(k, c)]
    requires rest == if cfg.fits(packet) then [Mark(packet.payload, now), Transmit(packet), AwaitReply(req), Tell(answer)] else [Tell(RespErr(4))]
    ensures
      var after, told := ApplyAll(s, added + rest), Told(added + rest);
      && k in after.contacts && (k !in s.contacts ==> after.contacts[k] == c)
      && if cfg.fits(packet) then Sent(s, after, told, packet, req, answer, now) else told == [RespErr(4)]
  {
    var t := ApplyAll(s, added);
    AddedFirst(s, added, rest);
    if added != [] {
      PathExchange.ApplyOne(s, added[0]);
    }
    SentIs(t, packet, req, answer, now);
    RefusedIs(t, 4);
    if cfg.fits(packet) {
      SentAfterAdding(s, t, ApplyAll(t, rest), Told(rest), packet, req, answer, now, k, c);
    }
  }

  lemma SentAfterAdding(s: State, t: State, after: State, told: seq<Frame>, packet: TxPacket, req: PendingReq, answer: Frame,
                        now: real, k: Key, c: Contact)
    requires t == s || (k !in s.contacts && t == s.(contacts := s.contacts[k := c]))
    requires Sent(t, after, told, packet, req, answer, now)
    ensures Sent(s, after, told, packet, req, answer, now)
    ensures forall j :: j in t.contacts ==> j in after.contacts && after.contacts[j] == t.contacts[j]
  {}

  lemma AddedFirst(s: State, added: seq<Effect>, rest: seq<Effect>)
    requires |added| <= 1 && forall i :: 0 <= i < |added| ==> added[i].Remember?
    ensures ApplyAll(s, added + rest) == ApplyAll(ApplyAll(s, added), rest) && Told(added + rest) == Told(rest)
  {
    Runs.FoldAppend(Apply, s, added, rest);
    Runs.CollectAppend(ToldBy, added, rest);
    Runs.CollectNone(ToldBy, added);
    assert [] + Told(rest) == Told(rest);
  }

  /** The app learns whether the text is flooded, the hash its ACK will carry, and how long to wait for it. */
  lemma TextIsAnswered(cfg: Config, s: State, f: seq<byte>, k: Key, now: real)
    requires PathExchange.AsksForText(cfg, s, f, k)
    ensures
      var flood := s.contacts[k].outPathLen == 255;
      Told(OnText(cfg, s, f, now)) == [RespSent(flood, TextAck(cfg, f), if flood then 15000 else 8000)]
  {
    var payload := TextPayload(cfg, k, f);
    var packet := Routed(s.contacts[k], payload, FloodWidth(s));
    ToldOne(Mark(payload, now), AwaitAck(TextAck(cfg, f), now), Transmit(packet),
            RespSent(!packet.direct, TextAck(cfg, f), if packet.direct then 8000 else 15000));
  }

  /** A text that cannot be sent changes nothing, and the code says why. */
  lemma TextIsRefused(cfg: Config, s: State, f: seq<byte>, now: real)
    ensures |f| < 14 ==> Refused(s, ApplyAll(s, OnText(cfg, s, f, now)), Told(OnText(cfg, s, f, now)), 6)
    ensures 14 <= |f| && 1 < f[1] ==> Refused(s, ApplyAll(s, OnText(cfg, s, f, now)), Told(OnText(cfg, s, f, now)), 1)
    ensures 14 <= |f| && f[1] <= 1 && (forall k :: k in s.contacts ==> k.prefix6 != FromBe(f[7..13])) ==>
      Refused(s, ApplyAll(s, OnText(cfg, s, f, now)), Told(OnText(cfg, s, f, now)), 2)
  {
    RefusedIs(s, 6);
    RefusedIs(s, 1);
    RefusedIs(s, 2);
  }

  /** A channel text is flooded at the width set, marked, and answered with OK. */
  lemma ChannelGoesOut(cfg: Config, s: State, payload: Payload, now: real)
    ensures
      var packet := TxPacket(false, payload, [], s.hashMode + 1);
      var es := Decide(cfg, s, ChannelCommand(payload, now));
      if cfg.fits(packet) then
        && Told(es) == [RespOk]
        && ApplyAll(s, es) == s.(txQueue := s.txQueue + [packet], seen := s.seen[DedupKey(payload, []) := now])
      else Refused(s, ApplyAll(s, es), Told(es), 4)
  {
    var packet := TxPacket(false, payload, [], s.hashMode + 1);
    ThreeApplied(s, Mark(payload, now), Transmit(packet), RespOk);
    RefusedIs(s, 4);
  }

  lemma ThreeApplied(s: State, m: Effect, t: Effect, answer: Frame)
    requires m.Mark? && t.Transmit?
    ensures ApplyAll(s, [m, t, Tell(answer)]) == Apply(Apply(s, m), t) && Told([m, t, Tell(answer)]) == [answer]
  {
    var o := Tell(answer);
    PathExchange.ApplyPair(s, m, t);
    PathExchange.ApplyThen(s, [m, t], o);
    assert [m, t] + [o] == [m, t, o];
    Runs.CollectNone(ToldBy, [m, t]);
    Runs.CollectLast(ToldBy, [m, t], o);
  }

  // ----- requests are answered

  /** A login is accepted by the new protocol (13 bytes, the fifth 0) or the old one (the letters OK), and by nothing else. */
  lemma LoginIff(k: Key, tag: U32, data: seq<byte>)
    requires 4 <= |data|
    ensures
      var accepted := (13 <= |data| && data[4] == 0) || (6 <= |data| && data[4] == 'O' as int && data[5] == 'K' as int);
      && (AnswerPush(Login, k, tag, data).PushLoginSuccess? <==> accepted)
      && (AnswerPush(Login, k, tag, data) == PushLoginFail(k) <==> !accepted)
    ensures 13 <= |data| && data[4] == 0 ==>
      AnswerPush(Login, k, tag, data) == PushLoginSuccess(data[6], k, Le32(tag) + [data[7], data[12]])
  {
    assert 6 <= |data| ==> data[4..6] == [data[4], data[5]];
  }

  lemma {:induction false} FoundLast(q: seq<PendingReq>, req: PendingReq, tag: U32, time: real)
    requires forall i :: 0 <= i < |q| ==> q[i].key != req.key
    requires req.tag == tag
    ensures FindRequest(q + [req], req.key, tag, time) == |q|
  {
    if q == [] {
      assert ([] + [req])[0] == req;
    } else {
      assert (q + [req])[1..] == q[1..] + [req];
      FoundLast(q[1..], req, tag, time);
    }
  }

  lemma OpenedReply(tag: U32, reply: seq<byte>)
    ensures
      var d := Opened(Le32(tag) + reply);
      4 <= |d| && FromLe32(d[..4]) == tag && reply <= d[4..] && forall i :: |reply| <= i < |d| - 4 ==> d[4..][i] == 0
  {
    var plain := Le32(tag) + reply;
    assert Opened(plain)[..4] == Le32(tag);
    Le32RoundTrip(tag);
  }

  /**
   * Heard while it is the only one of its contact, the answer with the tag of a request takes it, and a connected
   * app is given it as an answer of its kind, from this contact, with the reply.
   */
  lemma RequestIsAnswered(cfg: Config, s: State, earlier: seq<PendingReq>, req: PendingReq, p: RxPacket, salt: byte, reply: seq<byte>)
    requires s.pendingReqs == earlier + [req] && (forall i :: 0 <= i < |earlier| ==> earlier[i].key != req.key)
    requires req.key in s.contacts && !Dedup.Recent(s.seen, KeyOf(p), p.time)
    requires p.payload == Response(FirstByte(cfg.me), FirstByte(req.key), Shared(req.key, cfg.me), Le32(req.tag) + reply)
    ensures
      var es := OnReceive(cfg, s, p, salt);
      var data := Opened(Le32(req.tag) + reply);
      && ApplyAll(s, es).pendingReqs == earlier
      && Told(es) == (
        if !s.connected then []
        else if req.kind == Cli then [PushMsgWaiting]
        else [AnswerPush(req.kind, req.key, req.tag, data)])
      && ApplyAll(s, es).inbox == (
        if s.connected && req.kind == Cli
        then Queues.Kept(s.inbox + [CliReply(req.key, s.contacts[req.key].outPathLen, CString(data[4..]))]) else s.inbox)
  {
    var hear := Hear(KeyOf(p), p.time);
    var heard := Apply(s, hear);
    var data := Opened(Le32(req.tag) + reply);
    PathExchange.SharedCommutes(req.key, cfg.me);
    PathExchange.SenderIsUnique(cfg, heard, req.key);
    OpenedReply(req.tag, reply);
    FoundLast(earlier, req, req.tag, p.time);
    var es := OnAnswer(s.pendingReqs, s.connected, req.key, s.contacts[req.key].outPathLen, data, p.time);
    assert OnReceive(cfg, s, p, salt) == [hear] + es;
    AnswerTaken(s, hear, earlier, req, es[1..]);
    assert es == [TakeReply(|earlier|)] + es[1..];
    if es[1..] != [] {
      OutcomeTold(Apply(Apply(s, hear), TakeReply(|earlier|)), es[1..]);
    }
  }

  lemma LastTakenAway(earlier: seq<PendingReq>, req: PendingReq)
    ensures AckLedger.Without(earlier + [req], |earlier|) == earlier
  {}

  lemma AnswerTaken(s: State, hear: Effect, earlier: seq<PendingReq>, req: PendingReq, rest: seq<Effect>)
    requires hear.Hear? && s.pendingReqs == earlier + [req]
    ensures
      var taken := Apply(Apply(s, hear), TakeReply(|earlier|));
      && taken.pendingReqs == earlier && taken.inbox == s.inbox
      && ApplyAll(s, [hear] + ([TakeReply(|earlier|)] + rest)) == ApplyAll(taken, rest)
      && Told([hear] + ([TakeReply(|earlier|)] + rest)) == Told(rest)
  {
    LastTakenAway(earlier, req);
    PairFirst(s, hear, TakeReply(|earlier|), rest);
  }

  lemma PairFirst(s: State, a: Effect, b: Effect, rest: seq<Effect>)
    requires !a.Tell? && !b.Tell?
    ensures ApplyAll(s, [a] + ([b] + rest)) == ApplyAll(Apply(Apply(s, a), b), rest)
    ensures Told([a] + ([b] + rest)) == Told(rest)
  {
    assert [a] + ([b] + rest) == [a, b] + rest;
    PathExchange.ApplyPair(s, a, b);
    Runs.FoldAppend(Apply, s, [a, b], rest);
    Runs.CollectNone(ToldBy, [a, b]);
    Runs.CollectAppend(ToldBy, [a, b], rest);
    assert [] + Told(rest) == Told(rest);
  }

  lemma OutcomeTold(s: State, rest: seq<Effect>)
    requires (|rest| == 1 && rest[0].Tell?) || (|rest| == 2 && rest[0].Queue? && rest[1].Tell?)
    ensures ApplyAll(s, rest).pendingReqs == s.pendingReqs && ApplyAll(s, rest).contacts == s.contacts
    ensures Told(rest) == [rest[|rest| - 1].frame]
    ensures ApplyAll(s, rest).inbox == if |rest| == 2 then Queues.Kept(s.inbox + [rest[0].message]) else s.inbox
  {
    if |rest| == 1 {
      assert rest == [rest[0]];
      PathExchange.ApplyOne(s, rest[0]);
      Runs.CollectOne(ToldBy, rest[0]);
    } else {
      assert rest == [rest[0], rest[1]] && rest == [rest[0]] + [rest[1]];
      PathExchange.ApplyPair(s, rest[0], rest[1]);
      Runs.CollectOne(ToldBy, rest[0]);
      Runs.CollectLast(ToldBy, [rest[0]], rest[1]);
    }
  }

  // ----- an answer that brings a way with it

  /** A PATH return with an answer: the hops it is about, the type 1, the tag, the reply. */
  function WayWithAnswer(hops: seq<Hop>, tag: U32, reply: seq<byte>): seq<byte> {
    [Packed(hops)] + (Flatten(hops) + ([1] + (Le32(tag) + reply)))
  }

  lemma OpenedWay(hops: seq<Hop>, width: nat, tag: U32, reply: seq<byte>) returns (data: seq<byte>)
    requires PathExchange.Travelled(hops, width)
    ensures
      var d, n := Opened(WayWithAnswer(hops, tag, reply)), PathBytes(Packed(hops));
      && 2 + n < |d| && d[0] == Packed(hops) && d[1..1 + n] == Flatten(hops) && d[1 + n] == 1
      && data == d[2 + n..] && 4 <= |data| && data[..4] == Le32(tag) && reply <= data[4..]
      && forall i :: |reply| <= i < |data| - 4 ==> data[4..][i] == 0
  {
    PathExchange.PackedReads(hops, width);
    var plain := WayWithAnswer(hops, tag, reply);
    var n, pad := |Flatten(hops)|, Opened(plain)[|plain|..];
    var d := Opened(plain);
    FourPieces([Packed(hops)], Flatten(hops), [1], Le32(tag) + reply, pad, d);
    data := d[2 + n..];
    assert ((Le32(tag) + reply) + pad)[4..] == reply + pad;
  }

  lemma FourPieces(a: seq<byte>, b: seq<byte>, c: seq<byte>, e: seq<byte>, pad: seq<byte>, d: seq<byte>)
    requires |a| == 1 && |c| == 1 && d == (a + (b + (c + e))) + pad
    ensures d[0] == a[0] && d[1..1 + |b|] == b && d[1 + |b|] == c[0] && d[2 + |b|..] == e + pad
  {}

  /** The route is stored, and the app told, before anything else that the payload brings. */
  lemma WayFirst(s: State, hear: Effect, k: Key, c: Contact, more: seq<Effect>)
    requires hear.Hear?
    ensures
      var es, t := [hear] + (RouteLearned(s.connected, k, c) + more), Apply(Apply(s, hear), Remember(k, c));
      && ApplyAll(s, es) == ApplyAll(t, more)
      && Told(es) == (if s.connected then [PushPathUpdated(k)] else []) + Told(more)
  {
    var told := if s.connected then [Tell(PushPathUpdated(k))] else [];
    var t := Apply(Apply(s, hear), Remember(k, c));
    ConcatAssoc([Remember(k, c)], told, more);
    PairFirst(s, hear, Remember(k, c), told + more);
    Runs.FoldAppend(Apply, t, told, more);
    PathExchange.TellingChangesNothing(t, told);
    Runs.CollectAppend(ToldBy, told, more);
    if s.connected {
      Runs.CollectOne(ToldBy, told[0]);
    }
  }

  lemma ReplyTaken(t: State, earlier: seq<PendingReq>, req: PendingReq, rest: seq<Effect>)
    requires t.pendingReqs == earlier + [req]
    ensures
      var taken := Apply(t, TakeReply(|earlier|));
      && taken.pendingReqs == earlier && taken.contacts == t.contacts && taken.inbox == t.inbox
      && ApplyAll(t, [TakeReply(|earlier|)] + rest) == ApplyAll(taken, rest)
      && Told([TakeReply(|earlier|)] + rest) == Told(rest)
  {
    LastTakenAway(earlier, req);
    Runs.FoldAppend(Apply, t, [TakeReply(|earlier|)], rest);
    PathExchange.ApplyOne(t, TakeReply(|earlier|));
    Runs.CollectNone(ToldBy, [TakeReply(|earlier|)]);
    Runs.CollectAppend(ToldBy, [TakeReply(|earlier|)], rest);
    assert [] + Told(rest) == Told(rest);
  }

  /**
   * An answer inside a PATH return does both: the contact is known by that way from then on, and the request is taken
   * and answered as by an answer of its own, padding included.
   */
  lemma WayIsLearnedAndRequestAnswered(cfg: Config, s: State, earlier: seq<PendingReq>, req: PendingReq, p: RxPacket, salt: byte,
                                       hops: seq<Hop>, width: nat, reply: seq<byte>) returns (data: seq<byte>)
    requires s.pendingReqs == earlier + [req] && (forall i :: 0 <= i < |earlier| ==> earlier[i].key != req.key)
    requires req.key in s.contacts && !Dedup.Recent(s.seen, KeyOf(p), p.time) && PathExchange.Travelled(hops, width)
    requires p.payload == Path(FirstByte(cfg.me), FirstByte(req.key), Shared(req.key, cfg.me), WayWithAnswer(hops, req.tag, reply))
    ensures 4 <= |data| && data[..4] == Le32(req.tag) && reply <= data[4..]
    ensures forall i :: |reply| <= i < |data| - 4 ==> data[4..][i] == 0
    ensures
      var es := OnReceive(cfg, s, p, salt);
      var after := ApplyAll(s, es);
      && after.contacts == s.contacts[req.key := s.contacts[req.key].(outPathLen := Packed(hops), outPath := Flatten(hops), lastMod := p.time)]
      && after.pendingReqs == earlier
      && Told(es) == (
        if !s.connected then []
        else [PushPathUpdated(req.key), if req.kind == Cli then PushMsgWaiting else AnswerPush(req.kind, req.key, req.tag, data)])
  {
    var hear, k := Hear(KeyOf(p), p.time), req.key;
    var c := s.contacts[k].(outPathLen := Packed(hops), outPath := Flatten(hops), lastMod := p.time);
    data := OpenedWay(hops, width, req.tag, reply);
    var answers := OnAnswer(s.pendingReqs, s.connected, k, Packed(hops), data, p.time);
    WayReceived(cfg, s, p, salt, k, c, WayWithAnswer(hops, req.tag, reply), PathBytes(Packed(hops)), answers);
    WayFirst(s, hear, k, c, answers);
    AnswerGiven(Apply(Apply(s, hear), Remember(k, c)), earlier, req, Packed(hops), data, p.time, answers);
  }

  lemma WayReceived(cfg: Config, s: State, p: RxPacket, salt: byte, k: Key, c: Contact, plain: seq<byte>, n: nat, answers: seq<Effect>)
    requires k in s.contacts && !Dedup.Recent(s.seen, KeyOf(p), p.time)
    requires plain != [] && p.payload == Path(FirstByte(cfg.me), FirstByte(k), Shared(k, cfg.me), plain)
    requires
      var d := Opened(plain);
      && 2 + n < |d| && n == PathBytes(d[0]) && d[1 + n] == 1
      && c == s.contacts[k].(outPathLen := d[0], outPath := d[1..1 + n], lastMod := p.time)
      && answers == OnAnswer(s.pendingReqs, s.connected, k, d[0], d[2 + n..], p.time)
    ensures OnReceive(cfg, s, p, salt) == [Hear(KeyOf(p), p.time)] + (RouteLearned(s.connected, k, c) + answers)
  {
    PathExchange.SharedCommutes(k, cfg.me);
    PathExchange.SenderIsUnique(cfg, Apply(s, Hear(KeyOf(p), p.time)), k);
  }

  lemma AnswerGiven(t: State, earlier: seq<PendingReq>, req: PendingReq, pathLen: byte, data: seq<byte>, time: real, es: seq<Effect>)
    requires t.pendingReqs == earlier + [req] && (forall i :: 0 <= i < |earlier| ==> earlier[i].key != req.key)
    requires 4 <= |data| && data[..4] == Le32(req.tag)
    requires es == OnAnswer(t.pendingReqs, t.connected, req.key, pathLen, data, time)
    ensures ApplyAll(t, es).pendingReqs == earlier && ApplyAll(t, es).contacts == t.contacts
    ensures Told(es) == (
      if !t.connected then []
      else [if req.kind == Cli then PushMsgWaiting else AnswerPush(req.kind, req.key, req.tag, data)])
  {
    Le32RoundTrip(req.tag);
    FoundLast(earlier, req, req.tag, time);
    var rest := es[1..];
    assert es == [TakeReply(|earlier|)] + rest;
    ReplyTaken(t, earlier, req, rest);
    if rest != [] {
      OutcomeTold(Apply(t, TakeReply(|earlier|)), rest);
    }
  }

  /** Every answer but a login's carries the reply on, up to what a frame of 172 bytes holds behind its head. */
  lemma AnswersCarryOn(kind: Kind, k: Key, tag: U32, data: seq<byte>)
    requires 4 <= |data| && kind != Login
    ensures
      var limit := if kind == Binary || kind == Anon then 172 - 6 else 172 - 8;
      AnswerPush(kind, k, tag, data) == PushAnswer(kind, k, tag, if |data| - 4 <= limit then data[4..] else data[4..4 + limit])
  {}

  // ----- traces and control data

  /** A trace is pushed if its route has at most as many bytes as hops added theirs, 1, 2, 4 or 8 bytes to a hash. */
  lemma TraceIsPushedIff(connected: bool, raw: seq<byte>, hops: seq<Hop>)
    requires 9 <= |raw|
    ensures
      var f := raw[8] % 4;
      var each := if f == 0 then 1 else if f == 1 then 2 else if f == 2 then 4 else 8;
      OnTrace(connected, raw, hops) == if connected && |raw| - 9 <= |hops| * each then [Tell(PushTrace(raw, Flatten(hops)))] else []
  {
    DoubledIs(|hops|, raw[8] % 4);
  }

  lemma DoubledIs(n: nat, times: nat)
    requires times < 4
    ensures Doubled(n, times) == n * (if times == 0 then 1 else if times == 1 then 2 else if times == 2 then 4 else 8)
  {
    assert Doubled(8 * n, 0) == 8 * n && Doubled(4 * n, 0) == 4 * n && Doubled(2 * n, 0) == 2 * n;
    assert Doubled(4 * n, 1) == Doubled(8 * n, 0) && Doubled(2 * n, 1) == Doubled(4 * n, 0);
    assert Doubled(2 * n, 2) == Doubled(4 * n, 1);
  }

  // ----- adverts

  /** A signed advert leaves the contact as advertised, with the way the advert came, and with the route it had. */
  lemma AdvertIsKept(cfg: Config, s: State, p: RxPacket, salt: byte)
    requires p.payload.Advert? && p.payload.signed && p.payload.from != cfg.me && !Dedup.Recent(s.seen, KeyOf(p), p.time)
    ensures
      var k, after := p.payload.from, ApplyAll(s, OnReceive(cfg, s, p, salt));
      && k in after.contacts && after.contacts - {k} == s.contacts - {k}
      && var c := after.contacts[k];
      && c.kind == p.payload.kind && c.name == p.payload.name && c.advPath == Flatten(p.hops) && c.advPathLen == Packed(p.hops)
      && (if k in s.contacts then SameRoute(c, s.contacts[k]) else c.outPathLen == 255 && c.outPath == [])
      && Told(OnReceive(cfg, s, p, salt)) == if s.connected then [PushNewAdvert(k, c)] else []
  {
    var hear := Hear(KeyOf(p), p.time);
    var es := OnAdvertHeard(cfg, Apply(s, hear), p);
    assert OnReceive(cfg, s, p, salt) == [hear] + es;
    RememberedAndTold(s, hear, es, es[0].contact, p.payload.from);
  }

  lemma RememberedAndTold(s: State, hear: Effect, es: seq<Effect>, c: Contact, k: Key)
    requires hear.Hear? && es == [Remember(k, c)] + if s.connected then [Tell(PushNewAdvert(k, c))] else []
    ensures ApplyAll(s, [hear] + es).contacts == s.contacts[k := c]
    ensures Told([hear] + es) == if s.connected then [PushNewAdvert(k, c)] else []
  {
    var rest := if s.connected then [Tell(PushNewAdvert(k, c))] else [];
    PairFirst(s, hear, Remember(k, c), rest);
    PathExchange.TellingChangesNothing(Apply(Apply(s, hear), Remember(k, c)), rest);
    if s.connected {
      Runs.CollectOne(ToldBy, rest[0]);
    }
  }
}
