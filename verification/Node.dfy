/** The node as the object it is: its fields, and the handlers that update them. */
module Node {
  import opened Prelude
  import opened NodeSpec
  import AckLedger
  import Dedup
  import Queues
  import Runs

  lemma FirstUnique(ks: set<Key>, a: Key)
    requires ks != {} && IsFirst(ks, a)
    ensures First(ks) == a
  {}

  lemma Extend(origin: State, done: seq<Effect>, e: Effect)
    ensures ApplyAll(origin, done + [e]) == Apply(ApplyAll(origin, done), e)
    ensures Told(done + [e]) == if e.Tell? then Told(done) + [e.frame] else Told(done)
  {
    Runs.FoldLast(Apply, origin, done, e);
    Runs.CollectLast(ToldBy, done, e);
    assert Told(done) + [] == Told(done);
  }

  class MeshNode {
    const cfg: Config
    var contacts: map<Key, Contact>
    var inbox: seq<Message>
    var seen: map<DedupKey, real>
    var pendingAcks: seq<AckLedger.PendingAck>
    var pendingReqs: seq<PendingReq>
    var txQueue: seq<TxPacket>
    var inFlight: Option<TxPacket>
    /** every packet the radio was given, in order */
    var transmitted: seq<TxPacket>
    var connected: bool
    var hashMode: int
    /** every frame given to the app, in order */
    var told: seq<Frame>

    /** where the node started, and all it did since */
    ghost const origin: State
    ghost var done: seq<Effect>

    ghost function View(): State
      reads this
    {
      State(contacts, inbox, seen, pendingAcks, pendingReqs, txQueue, inFlight, transmitted, connected, hashMode)
    }

    /** The fields are what the effects made of the start. */
    ghost predicate Valid()
      reads this
    {
      View() == ApplyAll(origin, done) && told == Told(done)
    }

    constructor (cfg: Config, contacts: map<Key, Contact>, hashMode: int)
      ensures Valid() && done == [] && this.cfg == cfg
      ensures View() == State(contacts, [], map[], [], [], [], None, [], false, hashMode)
    {
      this.cfg := cfg;
      this.contacts, this.hashMode := contacts, hashMode;
      inbox, seen, pendingAcks, pendingReqs, connected, told := [], map[], [], [], false, [];
      txQueue, inFlight, transmitted := [], None, [];
      origin := State(contacts, [], map[], [], [], [], None, [], false, hashMode);
      done := [];
    }

    // ----- one field at a time

    method Say(f: Frame)
      requires Valid()
      modifies this
      ensures Valid() && done == old(done) + [Tell(f)] && View() == old(View())
    {
      Extend(origin, done, Tell(f));
      told := told + [f];
      done := done + [Tell(f)];
    }

    method MarkSeen(payload: Payload, at: real)
      requires Valid()
      modifies this
      ensures Valid() && done == old(done) + [Mark(payload, at)] && View() == Apply(old(View()), Mark(payload, at))
    {
      Extend(origin, done, Mark(payload, at));
      seen := seen[DedupKey(payload, []) := at];
      done := done + [Mark(payload, at)];
    }

    /** seenBefore */
    method SeenBefore(key: DedupKey, now: real) returns (duplicate: bool)
      requires Valid()
      modifies this
      ensures Valid() && done == old(done) + [Hear(key, now)] && View() == Apply(old(View()), Hear(key, now))
      ensures duplicate == Dedup.Recent(old(seen), key, now)
    {
      Extend(origin, done, Hear(key, now));
      done := done + [Hear(key, now)];
      if key in seen && now - seen[key] < Dedup.WINDOW {
        return true;
      }
      seen := seen[key := now];
      if Dedup.CAPACITY < |seen| {
        seen := Dedup.Prune(seen, now);
      }
      return false;
    }

    method StoreContact(k: Key, c: Contact)
      requires Valid()
      modifies this
      ensures Valid() && done == old(done) + [Remember(k, c)] && View() == Apply(old(View()), Remember(k, c))
    {
      Extend(origin, done, Remember(k, c));
      contacts := contacts[k := c];
      done := done + [Remember(k, c)];
    }

    method EraseContact(k: Key)
      requires Valid()
      modifies this
      ensures Valid() && done == old(done) + [Forget(k)] && View() == Apply(old(View()), Forget(k))
    {
      Extend(origin, done, Forget(k));
      contacts := contacts - {k};
      done := done + [Forget(k)];
    }

    method AddPendingAck(ack: U32, at: real)
      requires Valid()
      modifies this
      ensures Valid() && done == old(done) + [AwaitAck(ack, at)] && View() == Apply(old(View()), AwaitAck(ack, at))
    {
      Extend(origin, done, AwaitAck(ack, at));
      pendingAcks := AckLedger.Push(pendingAcks, AckLedger.PendingAck(ack, at));
      done := done + [AwaitAck(ack, at)];
    }

    method AddPendingReq(req: PendingReq)
      requires Valid()
      modifies this
      ensures Valid() && done == old(done) + [AwaitReply(req)] && View() == Apply(old(View()), AwaitReply(req))
    {
      Extend(origin, done, AwaitReply(req));
      pendingReqs := pendingReqs + [req];
      while MAX_REQUESTS < |pendingReqs|
        invariant Trimmed(pendingReqs, MAX_REQUESTS) == Trimmed(old(pendingReqs) + [req], MAX_REQUESTS)
        invariant done == old(done) && told == old(told)
        invariant View() == old(View()).(pendingReqs := pendingReqs)
        decreases |pendingReqs|
      {
        pendingReqs := pendingReqs[1..];
      }
      done := done + [AwaitReply(req)];
    }

    method EnqueueTx(packet: TxPacket)
      requires Valid()
      modifies this
      ensures Valid() && done == old(done) + [Transmit(packet)] && View() == Apply(old(View()), Transmit(packet))
    {
      Extend(origin, done, Transmit(packet));
      txQueue := txQueue + [packet];
      done := done + [Transmit(packet)];
    }

    method QueueMessage(m: Message)
      requires Valid()
      modifies this
      ensures Valid() && done == old(done) + QueueForApp(old(connected), m)
      ensures View() == old(View()).(inbox := Queues.Kept(old(inbox) + [m]))
    {
      Extend(origin, done, Queue(m));
      inbox := Queues.TrimFront(inbox + [m]);
      done := done + [Queue(m)];
      if connected {
        Say(PushMsgWaiting);
        ConcatAssoc(old(done), [Queue(m)], [Tell(PushMsgWaiting)]);
      } else {
        assert [Queue(m)] + [] == [Queue(m)];
      }
    }

    // ----- searches in map order

    method FindByPrefix(prefix: nat) returns (r: Option<Key>)
      ensures r == FirstMatch(contacts, prefix)
    {
      var todo := contacts.Keys;
      while todo != {}
        invariant todo <= contacts.Keys
        invariant forall k :: k in contacts && k !in todo ==> k.prefix6 != prefix
        decreases todo
      {
        var k := First(todo);
        if k.prefix6 == prefix {
          assert k in Named(contacts, prefix) && Named(contacts, prefix) <= todo;
          FirstUnique(Named(contacts, prefix), k);
          return Some(k);
        }
        todo := todo - {k};
      }
      return None;
    }

    method FindSender(src: byte, secret: Secret) returns (r: Option<Key>)
      ensures r == Sender(cfg, View(), src, secret)
    {
      var todo := contacts.Keys;
      while todo != {}
        invariant todo <= contacts.Keys
        invariant forall k :: k in contacts && k !in todo && FirstByte(k) == src ==> Shared(cfg.me, k) != secret
        decreases todo
      {
        var k := First(todo);
        if FirstByte(k) == src && Shared(cfg.me, k) == secret {
          assert k in Sharing(cfg.me, contacts, src, secret) && Sharing(cfg.me, contacts, src, secret) <= todo;
          FirstUnique(Sharing(cfg.me, contacts, src, secret), k);
          return Some(k);
        }
        todo := todo - {k};
      }
      return None;
    }

    // ----- commands

    method HandleSendDirectText(f: seq<byte>, now: real)
      requires Valid()
      modifies this
      ensures Valid() && done == old(done) + OnText(cfg, old(View()), f, now)
      ensures contacts == old(contacts) && inbox == old(inbox) && connected == old(connected) && hashMode == old(hashMode)
    {
      if |f| < 14 {
        Say(RespErr(6));
        return;
      }
      if f[1] == 1 {
        HandleCli(f, now);
        return;
      }
      if f[1] != 0 {
        Say(RespErr(1));
        return;
      }
      var match' := FindByPrefix(FromBe(f[7..13]));
      if match'.None? {
        Say(RespErr(2));
        return;
      }
      SendText(match'.value, f, now);
    }

    method SendText(k: Key, f: seq<byte>, now: real)
      requires Valid() && 14 <= |f| && k in contacts
      modifies this
      ensures Valid() && done == old(done) + TextTo(cfg, old(View()), k, f, now)
      ensures contacts == old(contacts) && inbox == old(inbox) && connected == old(connected) && hashMode == old(hashMode)
      ensures pendingReqs == old(pendingReqs)
    {
      var c := contacts[k];
      var payload := TextPayload(cfg, k, f);
      var direct := c.outPathLen != UNKNOWN_PATH;
      var packet := if direct then TxPacket(true, payload, c.outPath, RouteWidth(c.outPathLen))
                    else TxPacket(false, payload, [], hashMode + 1);
      if !cfg.fits(packet) {
        Say(RespErr(4));
        return;
      }
      var ack := TextAck(cfg, f);
      MarkSeen(payload, now);
      AddPendingAck(ack, now);
      EnqueueTx(packet);
      Say(RespSent(!direct, ack, if direct then 8000 else 15000));
      FourEffects(old(done), Mark(payload, now), AwaitAck(ack, now), Transmit(packet),
                  Tell(RespSent(!direct, ack, if direct then 8000 else 15000)));
    }

    method HandleCli(f: seq<byte>, now: real)
      requires Valid() && 14 <= |f|
      modifies this
      ensures Valid() && done == old(done) + OnCli(cfg, old(View()), f, now)
      ensures pendingAcks == old(pendingAcks) && (|old(pendingReqs)| <= MAX_REQUESTS ==> |pendingReqs| <= MAX_REQUESTS)
      ensures contacts == old(contacts) && inbox == old(inbox) && connected == old(connected) && hashMode == old(hashMode)
    {
      var match' := FindByPrefix(FromBe(f[7..13]));
      if match'.None? {
        Say(RespErr(2));
        return;
      }
      var k := match'.value;
      var plain := Le32(Tag(now)) + CString(f[13..]);
      SendToContact(k, Request(FirstByte(k), FirstByte(cfg.me), Shared(cfg.me, k), plain), Cli, now);
    }

    /** sendToContact, and what its callers do around it. */
    method SendToContact(k: Key, payload: Payload, kind: Kind, now: real)
      requires Valid() && k in contacts
      modifies this
      ensures Valid() && done == old(done) + ToContact(cfg, old(View()), k, payload, kind, now)
      ensures pendingAcks == old(pendingAcks) && (|old(pendingReqs)| <= MAX_REQUESTS ==> |pendingReqs| <= MAX_REQUESTS)
      ensures contacts == old(contacts) && inbox == old(inbox) && connected == old(connected) && hashMode == old(hashMode)
    {
      var c := contacts[k];
      var packet := if c.outPathLen != UNKNOWN_PATH then TxPacket(true, payload, c.outPath, RouteWidth(c.outPathLen))
                    else TxPacket(false, payload, [], 1);
      if !cfg.fits(packet) {
        Say(RespErr(4));
        return;
      }
      SendMarked(packet, PendingReq(kind, k, Tag(now), now), RespSent(c.outPathLen == UNKNOWN_PATH, 0, 20000), now);
    }

    /** Marks a packet's payload, enqueues it, and remembers what it asks. */
    method SendMarked(packet: TxPacket, req: PendingReq, answer: Frame, now: real)
      requires Valid()
      modifies this
      ensures Valid() && done == old(done) + [Mark(packet.payload, now), Transmit(packet), AwaitReply(req), Tell(answer)]
      ensures pendingAcks == old(pendingAcks) && |pendingReqs| <= MAX_REQUESTS
      ensures contacts == old(contacts) && inbox == old(inbox) && connected == old(connected) && hashMode == old(hashMode)
    {
      MarkSeen(packet.payload, now);
      EnqueueTx(packet);
      AddPendingReq(req);
      Say(answer);
      FourEffects(old(done), Mark(packet.payload, now), Transmit(packet), AwaitReply(req), Tell(answer));
    }

    method SendContactRequest(k: Key, body: seq<byte>, kind: Kind, forceFlood: bool, now: real)
      requires Valid()
      modifies this
      ensures Valid() && done == old(done) + OnRequest(cfg, old(View()), k, body, kind, forceFlood, now)
      ensures pendingAcks == old(pendingAcks) && (|old(pendingReqs)| <= MAX_REQUESTS ==> |pendingReqs| <= MAX_REQUESTS)
      ensures contacts == old(contacts) && inbox == old(inbox) && connected == old(connected) && hashMode == old(hashMode)
    {
      if k !in contacts {
        Say(RespErr(2));
        return;
      }
      var target := contacts[k];
      var payload := Request(FirstByte(k), FirstByte(cfg.me), Shared(cfg.me, k), Le32(Tag(now)) + body);
      var flooded := forceFlood || target.outPathLen == UNKNOWN_PATH;
      var packet := if flooded then TxPacket(false, payload, [], hashMode + 1)
                    else TxPacket(true, payload, target.outPath, RouteWidth(target.outPathLen));
      if !cfg.fits(packet) {
        Say(RespErr(4));
        return;
      }
      SendRequest(packet, PendingReq(kind, k, Tag(now), now), RespSent(flooded, Tag(now), if flooded then 30000 else 12000), now);
    }

    /** As SendMarked, but a request is enqueued before it is marked. */
    method SendRequest(packet: TxPacket, req: PendingReq, answer: Frame, now: real)
      requires Valid()
      modifies this
      ensures Valid() && done == old(done) + [Transmit(packet), Mark(packet.payload, now), AwaitReply(req), Tell(answer)]
      ensures pendingAcks == old(pendingAcks) && |pendingReqs| <= MAX_REQUESTS
      ensures contacts == old(contacts) && inbox == old(inbox) && connected == old(connected) && hashMode == old(hashMode)
    {
      EnqueueTx(packet);
      MarkSeen(packet.payload, now);
      AddPendingReq(req);
      Say(answer);
      FourEffects(old(done), Transmit(packet), Mark(packet.payload, now), AwaitReply(req), Tell(answer));
    }

    method HandleRepeaterRequest(k: Key, login: bool, body: seq<byte>, now: real)
      requires Valid()
      modifies this
      ensures Valid() && done == old(done) + OnRepeater(cfg, old(View()), k, login, body, now)
      ensures pendingAcks == old(pendingAcks) && (|old(pendingReqs)| <= MAX_REQUESTS ==> |pendingReqs| <= MAX_REQUESTS)
      ensures contacts == old(contacts) && inbox == old(inbox) && connected == old(connected) && hashMode == old(hashMode)
    {
      if k !in contacts {
        Say(RespErr(2));
        return;
      }
      var secret := Shared(cfg.me, k);
      if login {
        var password := CString(body);
        if 15 < |password| {
          password := password[..15];
        }
        SendToContact(k, AnonRequest(FirstByte(k), cfg.me, secret, Le32(Tag(now)) + password), Login, now);
      } else {
        var plain := Le32(Tag(now)) + [1, 0, 0, 0, 0] + body;
        SendToContact(k, Request(FirstByte(k), FirstByte(cfg.me), secret, plain), Status, now);
      }
    }

    method HandleAnonRequest(k: Key, body: seq<byte>, now: real)
      requires Valid()
      modifies this
      ensures Valid() && done == old(done) + OnAnon(cfg, old(View()), k, body, now)
      ensures k in contacts && contacts - {k} == old(contacts) - {k} && (k in old(contacts) ==> contacts == old(contacts))
      ensures inbox == old(inbox) && pendingAcks == old(pendingAcks) && connected == old(connected) && hashMode == old(hashMode)
    {
      ghost var adding: seq<Effect> := [];
      if k !in contacts {
        var anon := Contact(0, "", now, 0, [], UNKNOWN_PATH, []);
        adding := [Remember(k, anon)];
        StoreContact(k, anon);
      }
      assert done == old(done) + adding;
      var target := contacts[k];
      var payload := AnonRequest(FirstByte(k), cfg.me, Shared(cfg.me, k), Le32(Tag(now)) + body);
      var path, packed: byte := [], 0;
      if target.outPathLen != UNKNOWN_PATH {
        path, packed := target.outPath, target.outPathLen;
      }
      var packet := TxPacket(true, payload, path, RouteWidth(packed));
      if !cfg.fits(packet) {
        Say(RespErr(4));
        ConcatAssoc(old(done), adding, [Tell(RespErr(4))]);
        return;
      }
      var req := PendingReq(Anon, k, Tag(now), now);
      SendMarked(packet, req, RespSent(false, Tag(now), 20000), now);
      ConcatAssoc(old(done), adding,
                  [Mark(payload, now), Transmit(packet), AwaitReply(req), Tell(RespSent(false, Tag(now), 20000))]);
    }

    method SendChannelText(payload: Payload, now: real)
      requires Valid()
      modifies this
      ensures Valid() && done == old(done) + Decide(cfg, old(View()), ChannelCommand(payload, now))
    {
      var packet := TxPacket(false, payload, [], hashMode + 1);
      if !cfg.fits(packet) {
        Say(RespErr(4));
        return;
      }
      MarkSeen(payload, now);
      EnqueueTx(packet);
      Say(RespOk);
      assert old(done) + [Mark(payload, now)] + [Transmit(packet)] + [Tell(RespOk)]
          == old(done) + [Mark(payload, now), Transmit(packet), Tell(RespOk)];
    }

    method ResetContactPath(k: Key)
      requires Valid()
      modifies this
      ensures Valid() && done == old(done) + Decide(cfg, old(View()), ResetPath(k))
    {
      ghost var forgetting: seq<Effect> := [];
      if k in contacts {
        var c := contacts[k].(outPathLen := UNKNOWN_PATH, outPath := []);
        forgetting := [Remember(k, c)];
        StoreContact(k, c);
      }
      assert done == old(done) + forgetting;
      Say(RespOk);
      ConcatAssoc(old(done), forgetting, [Tell(RespOk)]);
    }

    method AddUpdateContact(k: Key, kind: int, name: string, lastMod: real)
      requires Valid()
      modifies this
      ensures Valid() && done == old(done) + Decide(cfg, old(View()), UpsertContact(k, kind, name, lastMod))
    {
      var c := Contact(kind, name, lastMod, UNKNOWN_PATH, [], UNKNOWN_PATH, []);
      StoreContact(k, c);
      Say(RespOk);
      assert old(done) + [Remember(k, c)] + [Tell(RespOk)] == old(done) + [Remember(k, c), Tell(RespOk)];
    }

    method SyncNextMessage()
      requires Valid()
      modifies this
      ensures Valid() && done == old(done) + Decide(cfg, old(View()), SyncNext)
    {
      if inbox == [] {
        Say(RespNoMoreMessages);
        return;
      }
      Say(Pulled(inbox[0]));
      Extend(origin, done, Pull);
      inbox := inbox[1..];
      done := done + [Pull];
      assert old(done) + [Tell(Pulled(old(inbox)[0]))] + [Pull] == old(done) + [Tell(Pulled(old(inbox)[0])), Pull];
    }

    method Attach(connect: bool)
      requires Valid()
      modifies this
      ensures Valid() && done == old(done) + [Connect(connect)]
    {
      Extend(origin, done, Connect(connect));
      connected := connect;
      done := done + [Connect(connect)];
    }

    method ChangeHashMode(mode: int)
      requires Valid()
      modifies this
      ensures Valid() && done == old(done) + Decide(cfg, old(View()), SetPathHashMode(mode))
    {
      if mode < 0 || 3 <= mode {
        Say(RespErr(6));
        return;
      }
      Extend(origin, done, SetMode(mode));
      hashMode := mode;
      done := done + [SetMode(mode)];
      Say(RespOk);
      assert old(done) + [SetMode(mode)] + [Tell(RespOk)] == old(done) + [SetMode(mode), Tell(RespOk)];
    }

    /** The transmit worker takes a packet; it waits while the queue is empty. */
    method TakeTx()
      requires Valid()
      modifies this
      ensures Valid() && done == old(done) + [WorkerTakes]
      ensures View() == old(View()).(txQueue := txQueue, inFlight := inFlight)
      ensures if old(inFlight).None? && old(txQueue) != []
        then inFlight.Some? && old(txQueue) == [inFlight.value] + txQueue
        else txQueue == old(txQueue) && inFlight == old(inFlight)
    {
      Extend(origin, done, WorkerTakes);
      if inFlight.None? && txQueue != [] {
        inFlight := Some(txQueue[0]);
        txQueue := txQueue[1..];
      }
      done := done + [WorkerTakes];
    }

    /** The radio has transmitted the packet in flight. */
    method FinishTx()
      requires Valid()
      modifies this
      ensures Valid() && done == old(done) + [WorkerFinishes]
      ensures inFlight == None && txQueue == old(txQueue)
      ensures transmitted == old(transmitted) + if old(inFlight).Some? then [old(inFlight).value] else []
    {
      Extend(origin, done, WorkerFinishes);
      if inFlight.Some? {
        transmitted := transmitted + [inFlight.value];
        inFlight := None;
      } else {
        assert transmitted + [] == transmitted;
      }
      done := done + [WorkerFinishes];
    }

    // ----- packets

    /** Removes the first text waiting for the ACK, and says when it was sent. */
    method TakePendingAck(ack: U32) returns (matched: bool, sentAt: real)
      requires Valid()
      modifies this
      ensures Valid() && done == old(done) + [TakeAck(ack)] && View() == Apply(old(View()), TakeAck(ack))
      ensures matched == AckLedger.Awaited(old(pendingAcks), ack)
      ensures matched ==> sentAt == old(pendingAcks)[AckLedger.Find(old(pendingAcks), ack)].sentAt
    {
      Extend(origin, done, TakeAck(ack));
      matched, sentAt, pendingAcks := AckLedger.TakeFirst(pendingAcks, ack);
      done := done + [TakeAck(ack)];
    }

    method HandleAckValue(ack: U32, time: real)
      requires Valid()
      modifies this
      ensures Valid() && done == old(done) + OnAckValue(old(pendingAcks), old(connected), ack, time)
      ensures View() == old(View()).(pendingAcks := AckLedger.Acked(old(pendingAcks), ack))
    {
      var matched, sentAt := TakePendingAck(ack);
      if matched && connected {
        var trip := if time - sentAt < 0.0 then 0.0 else time - sentAt;
        Say(PushSendConfirmed(ack, trip));
        ConcatAssoc(old(done), [TakeAck(ack)], [Tell(PushSendConfirmed(ack, trip))]);
      }
    }

    /** onContactResponse */
    method HandleAnswer(k: Key, pathLen: byte, data: seq<byte>, time: real)
      requires Valid()
      modifies this
      ensures Valid() && done == old(done) + OnAnswer(old(pendingReqs), old(connected), k, pathLen, data, time)
      ensures contacts == old(contacts) && pendingAcks == old(pendingAcks) && txQueue == old(txQueue) && seen == old(seen)
      ensures |pendingReqs| <= |old(pendingReqs)| <= |pendingReqs| + 1
    {
      if |data| < 4 {
        return;
      }
      var tag := FromLe32(data[..4]);
      var i := FindPendingReq(k, tag, time);
      if i == |pendingReqs| {
        return;
      }
      var req := pendingReqs[i];
      TakePendingReq(i);
      if !connected {
        return;
      }
      if req.kind == Cli {
        QueueMessage(CliReply(k, pathLen, CString(data[4..])));
        ConcatAssoc(old(done), [TakeReply(i)], QueueForApp(true, CliReply(k, pathLen, CString(data[4..]))));
      } else {
        var push := BuildAnswerPush(req.kind, k, tag, data);
        Say(push);
        ConcatAssoc(old(done), [TakeReply(i)], [Tell(push)]);
      }
    }

    method TakePendingReq(i: nat)
      requires Valid() && i < |pendingReqs|
      modifies this
      ensures Valid() && done == old(done) + [TakeReply(i)] && View() == Apply(old(View()), TakeReply(i))
      ensures |pendingReqs| == |old(pendingReqs)| - 1
    {
      Extend(origin, done, TakeReply(i));
      pendingReqs := pendingReqs[..i] + pendingReqs[i + 1..];
      done := done + [TakeReply(i)];
    }

    method FindPendingReq(k: Key, tag: U32, time: real) returns (i: nat)
      ensures i == FindRequest(pendingReqs, k, tag, time) && i <= |pendingReqs|
    {
      i := 0;
      while i < |pendingReqs|
        invariant i <= |pendingReqs|
        invariant FindRequest(pendingReqs, k, tag, time) == i + FindRequest(pendingReqs[i..], k, tag, time)
      {
        if pendingReqs[i].key == k && (pendingReqs[i].tag == tag || time - pendingReqs[i].sentAt < 60.0) {
          return;
        }
        i := i + 1;
      }
    }

    method HandleTextHeard(p: RxPacket, salt: byte)
      requires Valid() && p.payload.TextMessage?
      modifies this
      ensures Valid() && done == old(done) + OnTextHeard(cfg, old(View()), p, salt)
      ensures contacts.Keys == old(contacts).Keys && pendingAcks == old(pendingAcks) && pendingReqs == old(pendingReqs)
      ensures forall k :: k in contacts ==> SameRoute(contacts[k], old(contacts)[k])
    {
      if p.payload.dest != FirstByte(cfg.me) {
        return;
      }
      var from := FindSender(p.payload.src, p.payload.secret);
      if from.None? {
        return;
      }
      var k := from.value;
      StoreContact(k, contacts[k].(lastMod := p.time));
      if p.payload.msg.txtType != 0 {
        return;
      }
      Deliver(k, p, salt);
      ConcatAssoc(old(done), [Remember(k, old(contacts)[k].(lastMod := p.time))],
                  Delivery(cfg, connected, hashMode + 1, k, p, salt));
    }

    /** A text for us: the app gets it, the sender an answer. */
    method Deliver(k: Key, p: RxPacket, salt: byte)
      requires Valid() && p.payload.TextMessage?
      modifies this
      ensures Valid() && done == old(done) + Delivery(cfg, old(connected), old(hashMode) + 1, k, p, salt)
      ensures contacts == old(contacts) && pendingAcks == old(pendingAcks) && pendingReqs == old(pendingReqs)
      ensures connected == old(connected) && hashMode == old(hashMode)
    {
      var m := p.payload.msg;
      var message := ContactMsg(k, |p.hops|, m.timestamp, m.text);
      QueueMessage(message);
      var reply := ReplyTo(k, p, salt);
      if cfg.fits(reply) {
        MarkSeen(reply.payload, p.time);
        EnqueueTx(reply);
        assert done == old(done) + QueueForApp(old(connected), message) + [Mark(reply.payload, p.time), Transmit(reply)];
        ConcatAssoc(old(done), QueueForApp(old(connected), message), [Mark(reply.payload, p.time), Transmit(reply)]);
      } else {
        assert QueueForApp(old(connected), message) + [] == QueueForApp(old(connected), message);
      }
    }

    /** The ACK, alone for a direct text, inside a PATH return for a flood. */
    method ReplyTo(k: Key, p: RxPacket, salt: byte) returns (reply: TxPacket)
      requires p.payload.TextMessage?
      ensures reply == Reply(cfg, hashMode + 1, k, p, salt)
    {
      var m := p.payload.msg;
      var ack6 := Le32(cfg.ackHash(m.timestamp, m.attempt, m.text, k)) + [m.attempt, salt];
      if p.flood {
        var path, hashSize := GatherHops(p.hops);
        var packed: byte := if p.hops == [] then 0 else |p.hops| % 64 + 64 * ((hashSize - 1) % 4);
        var plain := [packed] + (path + ([EXTRA_ACK] + ack6));
        reply := TxPacket(false, Path(FirstByte(k), FirstByte(cfg.me), Shared(cfg.me, k), plain), [], hashMode + 1);
      } else {
        reply := TxPacket(false, Ack(ack6), [], hashMode + 1);
      }
    }

    method HandlePathHeard(p: RxPacket)
      requires Valid() && p.payload.Path?
      modifies this
      ensures Valid() && done == old(done) + OnPathHeard(cfg, old(View()), p)
      ensures contacts.Keys == old(contacts).Keys && txQueue == old(txQueue) && seen == old(seen)
    {
      if p.payload.plain == [] || p.payload.dest != FirstByte(cfg.me) {
        return;
      }
      var from := FindSender(p.payload.src, p.payload.secret);
      if from.None? {
        return;
      }
      var k := from.value;
      var d := Opened(p.payload.plain);
      var n := PathBytes(d[0]);
      if |d| <= 1 + n {
        return;
      }
      var c := contacts[k].(outPathLen := d[0], outPath := d[1..1 + n], lastMod := p.time);
      StoreContact(k, c);
      ghost var learned := [Remember(k, c)];
      if connected {
        Say(PushPathUpdated(k));
        ConcatAssoc(old(done), learned, [Tell(PushPathUpdated(k))]);
        learned := learned + [Tell(PushPathUpdated(k))];
      }
      assert done == old(done) + learned;
      HandleExtra(k, c.outPathLen, d, n, p.time);
      ConcatAssoc(old(done), learned, OnExtra(old(View()), k, d[0], d, n, p.time));
    }

    /** What came with a route: an answer, or the ACK of a text we flooded. */
    method HandleExtra(k: Key, pathLen: byte, d: seq<byte>, n: nat, time: real)
      requires Valid() && 1 + n < |d|
      modifies this
      ensures Valid() && done == old(done) + OnExtra(old(View()), k, pathLen, d, n, time)
      ensures contacts == old(contacts) && txQueue == old(txQueue) && seen == old(seen)
    {
      var extra := d[1 + n] % 16;
      if extra == EXTRA_RESPONSE && 2 + n < |d| {
        HandleAnswer(k, pathLen, d[2 + n..], time);
      }
      if extra == EXTRA_ACK && 6 + n <= |d| {
        HandleAckValue(FromLe32(d[2 + n..6 + n]), time);
      }
    }

    method HandleAdvert(p: RxPacket)
      requires Valid() && p.payload.Advert?
      modifies this
      ensures Valid() && done == old(done) + OnAdvertHeard(cfg, old(View()), p)
      ensures old(contacts).Keys <= contacts.Keys <= old(contacts).Keys + {p.payload.from}
      ensures forall k :: k in old(contacts) ==> SameRoute(contacts[k], old(contacts)[k])
      ensures inbox == old(inbox) && pendingAcks == old(pendingAcks) && txQueue == old(txQueue)
    {
      var a := p.payload;
      if !a.signed || a.from == cfg.me {
        return;
      }
      var path, hashSize := GatherHops(p.hops);
      var packed: byte := if p.hops == [] then 0 else |p.hops| % 64 + 64 * ((hashSize - 1) % 4);
      var c := Contact(a.kind, a.name, p.time, UNKNOWN_PATH, [], packed, path);
      if a.from in contacts {
        c := c.(outPathLen := contacts[a.from].outPathLen, outPath := contacts[a.from].outPath);
      }
      StoreContact(a.from, c);
      if connected {
        Say(PushNewAdvert(a.from, c));
        ConcatAssoc(old(done), [Remember(a.from, c)], [Tell(PushNewAdvert(a.from, c))]);
      }
    }

    method HandleResponse(p: RxPacket)
      requires Valid() && p.payload.Response?
      modifies this
      ensures Valid() && done == old(done) + OnResponse(cfg, old(View()), p)
    {
      if p.payload.plain == [] || p.payload.dest != FirstByte(cfg.me) {
        return;
      }
      var from := FindSender(p.payload.src, p.payload.secret);
      if from.Some? {
        HandleAnswer(from.value, contacts[from.value].outPathLen, Opened(p.payload.plain), p.time);
      }
    }

    method HandleControl(raw: seq<byte>, hops: seq<Hop>)
      requires Valid()
      modifies this
      ensures Valid() && done == old(done) + OnControl(old(connected), raw, hops)
    {
      if raw == [] || raw[0] < 128 {
        return;
      }
      if hops != [] {
        return;
      }
      var p := raw;
      if 168 < |p| {
        p := p[..168];
      }
      if connected {
        Say(PushControl(p));
      }
    }

    method HandleTrace(raw: seq<byte>, hops: seq<Hop>)
      requires Valid()
      modifies this
      ensures Valid() && done == old(done) + OnTrace(old(connected), raw, hops)
    {
      if |raw| < 9 {
        return;
      }
      if Doubled(|hops|, raw[8] % 4) < |raw| - 9 {
        return;
      }
      var snrs, _ := GatherHops(hops);
      if connected {
        Say(PushTrace(raw, snrs));
      }
    }

    method OnRxPacket(p: RxPacket, salt: byte)
      requires Valid()
      modifies this
      ensures Valid() && done == old(done) + OnReceive(cfg, old(View()), p, salt)
    {
      var duplicate := SeenBefore(KeyOf(p), p.time);
      if duplicate {
        return;
      }
      ghost var heard := View();
      ghost var before := done;
      match p.payload {
        case TextMessage(_, _, _, _) => HandleTextHeard(p, salt);
        case Path(_, _, _, _) => HandlePathHeard(p);
        case Ack(bytes) =>
          if 4 <= |bytes| {
            HandleAckValue(FromLe32(bytes[..4]), p.time);
          }
        case Response(_, _, _, _) => HandleResponse(p);
        case Advert(_, _, _, _, _) => HandleAdvert(p);
        case Control(raw) => HandleControl(raw, p.hops);
        case Trace(raw) => HandleTrace(raw, p.hops);
        case Channel(_, plain) =>
          if plain.Some? {
            QueueMessage(ChannelMsg(|p.hops|, plain.value));
          }
        case _ =>
      }
      assert done == before + Handled(cfg, heard, p, salt);
      ConcatAssoc(old(done), [Hear(KeyOf(p), p.time)], Handled(cfg, heard, p, salt));
    }

    // ----- any event

    /** Whatever comes, the node does what is decided for the state it is in: it is the state machine. */
    method Handle(e: Event)
      requires Valid()
      modifies this
      ensures Valid() && done == old(done) + Decide(cfg, old(View()), e)
      ensures View() == Step(cfg, old(View()), e)
      ensures told == old(told) + Told(Decide(cfg, old(View()), e))
    {
      match e {
        case TextCommand(f, now) => HandleSendDirectText(f, now);
        case RequestCommand(k, body, kind, forceFlood, now) => SendContactRequest(k, body, kind, forceFlood, now);
        case RepeaterCommand(k, login, body, now) => HandleRepeaterRequest(k, login, body, now);
        case AnonCommand(k, body, now) => HandleAnonRequest(k, body, now);
        case ChannelCommand(payload, now) => SendChannelText(payload, now);
        case ResetPath(k) => ResetContactPath(k);
        case RemoveContact(k) => EraseContact(k);
        case UpsertContact(k, kind, name, lastMod) => AddUpdateContact(k, kind, name, lastMod);
        case SyncNext => SyncNextMessage();
        case SetAppSender(c) => Attach(c);
        case SetPathHashMode(mode) => ChangeHashMode(mode);
        case Receive(p, salt) => OnRxPacket(p, salt);
        case WorkerTake => TakeTx();
        case WorkerFinish => FinishTx();
      }
      Runs.FoldAppend(Apply, origin, old(done), Decide(cfg, old(View()), e));
      Runs.CollectAppend(ToldBy, old(done), Decide(cfg, old(View()), e));
    }
  }

  method BuildAnswerPush(kind: Kind, k: Key, tag: U32, data: seq<byte>) returns (push: Frame)
    requires 4 <= |data|
    ensures push == AnswerPush(kind, k, tag, data)
  {
    if kind == Login {
      var legacyOk := 6 <= |data| && data[4] == 0x4F && data[5] == 0x4B;
      var newOk := 13 <= |data| && data[4] == 0;
      assert 6 <= |data| ==> data[4..6] == [data[4], data[5]];
      if legacyOk || newOk {
        push := PushLoginSuccess(if newOk then data[6] else 0, k, if newOk then Le32(tag) + [data[7], data[12]] else []);
      } else {
        push := PushLoginFail(k);
      }
      return;
    }
    var body := data[4..];
    var limit := if kind == Binary || kind == Anon then 166 else 164;
    if limit < |body| {
      body := body[..limit];
    }
    push := PushAnswer(kind, k, tag, body);
  }

  /** The hops as one string of bytes, and the width of the last. */
  method GatherHops(hops: seq<Hop>) returns (path: seq<byte>, hashSize: int)
    ensures path == Flatten(hops)
    ensures hashSize == if hops == [] then 1 else |hops[|hops| - 1]|
  {
    path, hashSize := [], 1;
    for i := 0 to |hops|
      invariant path == Flatten(hops[..i])
      invariant hashSize == if i == 0 then 1 else |hops[i - 1]|
    {
      hashSize := |hops[i]|;
      assert hops[..i + 1] == hops[..i] + [hops[i]];
      FlattenAppend(hops[..i], [hops[i]]);
      assert Flatten([hops[i]]) == hops[i] + [];
      path := path + hops[i];
    }
    assert hops[..|hops|] == hops;
  }

  lemma FourEffects(done: seq<Effect>, a: Effect, b: Effect, c: Effect, d: Effect)
    ensures done + [a] + [b] + [c] + [d] == done + [a, b, c, d]
  {}
}
