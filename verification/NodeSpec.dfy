/**
 * The mesh node as a state machine: what one command of the app or one packet from
 * the radio makes it do. Encryption and the packet codec are ideal: a sealed payload
 * is opened by the two parties of its secret only, and different payloads differ.
 */
module NodeSpec {
  import opened Prelude
  import AckLedger
  import Dedup
  import Queues
  import Runs

  // ----- identities

  /** A 32-byte public key: its first six bytes, and the rest, as big-endian numbers. */
  datatype Key = Key(prefix6: nat, rest: nat)

  /** The order of the contact map: that of the keys as byte strings. */
  predicate Before(a: Key, b: Key) {
    a.prefix6 < b.prefix6 || (a.prefix6 == b.prefix6 && a.rest < b.rest)
  }

  /** The first byte: the short address of sender and destination. */
  function FirstByte(k: Key): byte {
    k.prefix6 / 0x100_0000_0000 % 256
  }

  /** The secret two parties share. */
  datatype Secret = Secret(lo: Key, hi: Key)

  function Shared(a: Key, b: Key): Secret {
    if Before(a, b) then Secret(a, b) else Secret(b, a)
  }

  lemma SharedIsInjective(me: Key, a: Key, b: Key)
    requires Shared(me, a) == Shared(me, b)
    ensures a == b
  {}

  // ----- what is stored and sent

  const UNKNOWN_PATH: byte := 0xFF

  datatype Contact = Contact(
    kind: int, name: string, lastMod: real,
    outPathLen: byte, outPath: seq<byte>, advPathLen: byte, advPath: seq<byte>)

  datatype TextMsg = TextMsg(timestamp: U32, attempt: byte, txtType: int, text: seq<byte>)

  type Hop = seq<byte>

  datatype Payload =
    | TextMessage(dest: byte, src: byte, secret: Secret, msg: TextMsg)
    | Path(dest: byte, src: byte, secret: Secret, plain: seq<byte>)
    | Request(dest: byte, src: byte, secret: Secret, plain: seq<byte>)
    | Response(dest: byte, src: byte, secret: Secret, plain: seq<byte>)
    | AnonRequest(dest: byte, sender: Key, secret: Secret, plain: seq<byte>)
    | Ack(bytes: seq<byte>)
    | Advert(from: Key, kind: int, name: string, timestamp: U32, signed: bool)
    | Channel(id: int, heard: Option<seq<byte>>)
    | Control(raw: seq<byte>)
    | Trace(raw: seq<byte>)
    | Other(raw: seq<byte>)

  /** A packet handed to the packet builder. */
  datatype TxPacket = TxPacket(direct: bool, payload: Payload, path: seq<byte>, width: int)

  /** A packet heard, with the hops it travelled so far. */
  datatype RxPacket = RxPacket(flood: bool, payload: Payload, hops: seq<Hop>, time: real)

  datatype Kind = Login | Status | Cli | Anon | Telemetry | Binary | PathDiscovery

  datatype PendingReq = PendingReq(kind: Kind, key: Key, tag: U32, sentAt: real)

  const MAX_REQUESTS := 16

  /** Messages kept until the app asks for them. */
  datatype Message =
    | ContactMsg(from: Key, hopCount: int, timestamp: U32, text: seq<byte>)
    | CliReply(from: Key, pathLen: byte, text: seq<byte>)
    | ChannelMsg(hopCount: int, body: seq<byte>)

  /** Frames for the app. */
  datatype Frame =
    | RespOk
    | RespErr(code: int)
    | RespSent(flood: bool, tag: U32, timeout: int)
    | RespNoMoreMessages
    | Pulled(message: Message)
    | PushMsgWaiting
    | PushPathUpdated(from: Key)
    | PushSendConfirmed(ack: U32, trip: real)
    | PushNewAdvert(from: Key, contact: Contact)
    | PushAnswer(kind: Kind, from: Key, tag: U32, body: seq<byte>)
    | PushLoginSuccess(permissions: byte, from: Key, more: seq<byte>)
    | PushLoginFail(from: Key)
    | PushControl(raw: seq<byte>)
    | PushTrace(raw: seq<byte>, snrs: seq<byte>)

  /** A trace is told from others by the hops it passed as well. */
  datatype DedupKey = DedupKey(payload: Payload, traced: seq<Hop>)

  datatype Config = Config(
    me: Key,
    ackHash: (U32, byte, seq<byte>, Key) -> U32,
    fits: TxPacket -> bool)

  datatype State = State(
    contacts: map<Key, Contact>,
    inbox: seq<Message>,
    seen: map<DedupKey, real>,
    pendingAcks: seq<AckLedger.PendingAck>,
    pendingReqs: seq<PendingReq>,
    txQueue: seq<TxPacket>,
    inFlight: Option<TxPacket>,
    transmitted: seq<TxPacket>,
    connected: bool,
    hashMode: int)

  // ----- effects

  datatype Effect =
    | Hear(key: DedupKey, at: real)
    | Mark(payload: Payload, at: real)
    | Remember(who: Key, contact: Contact)
    | Forget(who: Key)
    | AwaitAck(ack: U32, at: real)
    | TakeAck(ack: U32)
    | AwaitReply(req: PendingReq)
    | TakeReply(index: nat)
    | Queue(message: Message)
    | Pull
    | Transmit(packet: TxPacket)
    | WorkerTakes
    | WorkerFinishes
    | Connect(connected: bool)
    | SetMode(mode: int)
    | Tell(frame: Frame)

  function Trimmed<T>(q: seq<T>, limit: nat): (r: seq<T>)
    ensures |r| <= limit
  {
    if limit < |q| then Trimmed(q[1..], limit) else q
  }

  /** The transmit queue, and what the worker does with it. */
  function TxOf(s: State): Queues.TxState<TxPacket> {
    Queues.TxState(s.txQueue, s.inFlight, s.transmitted)
  }

  /** The worker does nothing out of turn. */
  function TxStepped(s: State, e: Queues.TxEvent<TxPacket>): State {
    if !Queues.Enabled(TxOf(s), e) then s
    else
      var t := Queues.TxStep(TxOf(s), e);
      s.(txQueue := t.queue, inFlight := t.inFlight, transmitted := t.transmitted)
  }

  function Apply(s: State, e: Effect): State {
    match e
    case Hear(key, at) => s.(seen := Dedup.AfterHearing(s.seen, key, at))
    case Mark(payload, at) => s.(seen := s.seen[DedupKey(payload, []) := at])
    case Remember(who, contact) => s.(contacts := s.contacts[who := contact])
    case Forget(who) => s.(contacts := s.contacts - {who})
    case AwaitAck(ack, at) => s.(pendingAcks := AckLedger.Pushed(s.pendingAcks, AckLedger.PendingAck(ack, at)))
    case TakeAck(ack) => s.(pendingAcks := AckLedger.Acked(s.pendingAcks, ack))
    case AwaitReply(req) => s.(pendingReqs := Trimmed(s.pendingReqs + [req], MAX_REQUESTS))
    case TakeReply(i) =>
      if i < |s.pendingReqs| then s.(pendingReqs := AckLedger.Without(s.pendingReqs, i)) else s
    case Queue(m) => s.(inbox := Queues.Kept(s.inbox + [m]))
    case Pull => if s.inbox == [] then s else s.(inbox := s.inbox[1..])
    case Transmit(packet) => TxStepped(s, Queues.Enqueue(packet))
    case WorkerTakes => TxStepped(s, Queues.Take)
    case WorkerFinishes => TxStepped(s, Queues.Finish)
    case Connect(c) => s.(connected := c)
    case SetMode(m) => s.(hashMode := m)
    case Tell(_) => s
  }

  function ApplyAll(s: State, es: seq<Effect>): State {
    Runs.Fold(Apply, s, es)
  }

  /** The frames sent to the app, in order. */
  function Told(es: seq<Effect>): seq<Frame> {
    Runs.Collect(ToldBy, es)
  }

  function ToldBy(e: Effect): seq<Frame> {
    if e.Tell? then [e.frame] else []
  }

  // ----- routes

  /** How many path bytes a packed length byte announces: hops times hash width. */
  function PathBytes(packed: byte): (n: nat) {
    (packed % 64) * (packed / 64 + 1)
  }

  function RouteWidth(packed: byte): int {
    packed / 64 % 4 + 1
  }

  /** Direct over a learned route, else a flood whose forwarders append hashes of the given width. */
  function Routed(c: Contact, payload: Payload, floodWidth: int): TxPacket {
    if c.outPathLen != UNKNOWN_PATH then TxPacket(true, payload, c.outPath, RouteWidth(c.outPathLen))
    else TxPacket(false, payload, [], floodWidth)
  }

  function FloodWidth(s: State): int {
    s.hashMode + 1
  }

  predicate SameRoute(a: Contact, b: Contact) {
    a.outPathLen == b.outPathLen && a.outPath == b.outPath
  }

  /** The length byte for the hops a packet travelled. */
  function Packed(hops: seq<Hop>): byte {
    if hops == [] then 0 else |hops| % 64 + 64 * ((|hops[|hops| - 1]| - 1) % 4)
  }

  // ----- commands

  function Tag(now: real): U32 {
    now.Floor % 0x1_0000_0000
  }

  /** Up to, and not including, the first zero byte. */
  function CString(b: seq<byte>): seq<byte> {
    if b == [] || b[0] == 0 then [] else [b[0]] + CString(b[1..])
  }

  function FromBe(b: seq<byte>): (x: nat) {
    if b == [] then 0 else 256 * FromBe(b[..|b| - 1]) + b[|b| - 1]
  }

  predicate IsFirst(ks: set<Key>, k: Key) {
    k in ks && forall j :: j in ks ==> j == k || Before(k, j)
  }

  function First(ks: set<Key>): (k: Key)
    requires ks != {}
    ensures IsFirst(ks, k)
  {
    FirstExists(ks);
    var k :| IsFirst(ks, k);
    k
  }

  lemma FirstExists(ks: set<Key>)
    requires ks != {}
    ensures exists k :: IsFirst(ks, k)
  {
    var k :| k in ks;
    var rest := ks - {k};
    assert forall j :: j in ks ==> j == k || j in rest;
    if rest == {} {
      assert IsFirst(ks, k);
    } else {
      FirstExists(rest);
      var m :| IsFirst(rest, m);
      assert IsFirst(ks, if Before(k, m) then k else m);
    }
  }

  function Named(contacts: map<Key, Contact>, prefix: nat): set<Key> {
    set k | k in contacts && k.prefix6 == prefix
  }

  /** The first contact, in map order, whose key starts with the six bytes. */
  function FirstMatch(contacts: map<Key, Contact>, prefix: nat): (r: Option<Key>)
    ensures r.Some? ==> r.value in contacts && r.value.prefix6 == prefix
    ensures r.None? ==> forall k :: k in contacts ==> k.prefix6 != prefix
  {
    var ks := Named(contacts, prefix);
    assert forall k :: k in contacts && k.prefix6 == prefix ==> k in ks;
    if ks == {} then None else Some(First(ks))
  }

  function TextPayload(cfg: Config, to: Key, f: seq<byte>): Payload
    requires 14 <= |f|
  {
    TextMessage(FirstByte(to), FirstByte(cfg.me), Shared(cfg.me, to),
                TextMsg(FromLe32(f[3..7]), f[2], 0, CString(f[13..])))
  }

  function TextAck(cfg: Config, f: seq<byte>): U32
    requires 14 <= |f|
  {
    cfg.ackHash(FromLe32(f[3..7]), f[2], CString(f[13..]), cfg.me)
  }

  /** [2][txt_type][attempt][timestamp4][prefix6][text] */
  function OnText(cfg: Config, s: State, f: seq<byte>, now: real): seq<Effect> {
    if |f| < 14 then [Tell(RespErr(6))]
    else if f[1] == 1 then OnCli(cfg, s, f, now)
    else if f[1] != 0 then [Tell(RespErr(1))]
    else
      match FirstMatch(s.contacts, FromBe(f[7..13]))
      case None => [Tell(RespErr(2))]
      case Some(k) => TextTo(cfg, s, k, f, now)
  }

  /** A plain text to a contact: marked, its ACK awaited, and sent over the route known, or flooded. */
  function TextTo(cfg: Config, s: State, k: Key, f: seq<byte>, now: real): seq<Effect>
    requires 14 <= |f| && k in s.contacts
  {
    var payload := TextPayload(cfg, k, f);
    var packet := Routed(s.contacts[k], payload, FloodWidth(s));
    if !cfg.fits(packet) then [Tell(RespErr(4))]
    else
      [ Mark(payload, now), AwaitAck(TextAck(cfg, f), now), Transmit(packet),
        Tell(RespSent(!packet.direct, TextAck(cfg, f), if packet.direct then 8000 else 15000)) ]
  }

  function OnCli(cfg: Config, s: State, f: seq<byte>, now: real): seq<Effect>
    requires 14 <= |f|
  {
    match FirstMatch(s.contacts, FromBe(f[7..13]))
    case None => [Tell(RespErr(2))]
    case Some(k) =>
      var payload := Request(FirstByte(k), FirstByte(cfg.me), Shared(cfg.me, k), Le32(Tag(now)) + CString(f[13..]));
      ToContact(cfg, s, k, payload, Cli, now)
  }

  /** sendToContact and the bookkeeping after it; the hash width of a flood is the default, 1. */
  function ToContact(cfg: Config, s: State, k: Key, payload: Payload, kind: Kind, now: real): seq<Effect>
    requires k in s.contacts
  {
    var packet := Routed(s.contacts[k], payload, 1);
    if !cfg.fits(packet) then [Tell(RespErr(4))]
    else
      [ Mark(payload, now), Transmit(packet), AwaitReply(PendingReq(kind, k, Tag(now), now)),
        Tell(RespSent(s.contacts[k].outPathLen == UNKNOWN_PATH, 0, 20000)) ]
  }

  function OnRequest(cfg: Config, s: State, k: Key, body: seq<byte>, kind: Kind, forceFlood: bool, now: real): seq<Effect> {
    if k !in s.contacts then [Tell(RespErr(2))]
    else
      var payload := Request(FirstByte(k), FirstByte(cfg.me), Shared(cfg.me, k), Le32(Tag(now)) + body);
      var packet := if forceFlood then TxPacket(false, payload, [], FloodWidth(s))
                    else Routed(s.contacts[k], payload, FloodWidth(s));
      if !cfg.fits(packet) then [Tell(RespErr(4))]
      else
        [ Transmit(packet), Mark(payload, now), AwaitReply(PendingReq(kind, k, Tag(now), now)),
          Tell(RespSent(!packet.direct, Tag(now), if packet.direct then 12000 else 30000)) ]
  }

  /** Login and status requests. */
  function OnRepeater(cfg: Config, s: State, k: Key, login: bool, body: seq<byte>, now: real): seq<Effect> {
    if k !in s.contacts then [Tell(RespErr(2))]
    else
      var password := CString(body);
      var secret := Shared(cfg.me, k);
      var payload :=
        if login then
          AnonRequest(FirstByte(k), cfg.me, secret,
                      Le32(Tag(now)) + (if 15 < |password| then password[..15] else password))
        else Request(FirstByte(k), FirstByte(cfg.me), secret, Le32(Tag(now)) + [1, 0, 0, 0, 0] + body);
      ToContact(cfg, s, k, payload, if login then Login else Status, now)
  }

  /** Asking a node that need not be a contact: it becomes one, reachable with no hop. */
  function OnAnon(cfg: Config, s: State, k: Key, body: seq<byte>, now: real): seq<Effect> {
    var known := k in s.contacts;
    var c := if known then s.contacts[k] else Contact(0, "", now, 0, [], UNKNOWN_PATH, []);
    var payload := AnonRequest(FirstByte(k), cfg.me, Shared(cfg.me, k), Le32(Tag(now)) + body);
    var packet := if c.outPathLen != UNKNOWN_PATH then TxPacket(true, payload, c.outPath, RouteWidth(c.outPathLen))
                  else TxPacket(true, payload, [], 1);
    (if known then [] else [Remember(k, c)])
    + if !cfg.fits(packet) then [Tell(RespErr(4))]
      else
        [ Mark(payload, now), Transmit(packet), AwaitReply(PendingReq(Anon, k, Tag(now), now)),
          Tell(RespSent(false, Tag(now), 20000)) ]
  }

  // ----- packets

  function Sharing(me: Key, contacts: map<Key, Contact>, src: byte, secret: Secret): set<Key> {
    set k | k in contacts && FirstByte(k) == src && Shared(me, k) == secret
  }

  /** The contact that shares the secret a payload is sealed with. */
  function Sender(cfg: Config, s: State, src: byte, secret: Secret): (r: Option<Key>)
    ensures r.Some? ==> r.value in s.contacts && FirstByte(r.value) == src && Shared(cfg.me, r.value) == secret
    ensures r.None? ==> forall k :: k in s.contacts && FirstByte(k) == src ==> Shared(cfg.me, k) != secret
  {
    var ks := Sharing(cfg.me, s.contacts, src, secret);
    assert forall k :: k in s.contacts && FirstByte(k) == src && Shared(cfg.me, k) == secret ==> k in ks;
    if ks == {} then None else Some(First(ks))
  }

  /** Decryption gives the plaintext back up to whole blocks of 16, the rest zero. */
  function Opened(plain: seq<byte>): (d: seq<byte>)
    ensures |plain| <= |d| && plain <= d
  {
    plain + seq((16 - |plain| % 16) % 16, _ => 0)
  }

  function QueueForApp(connected: bool, m: Message): seq<Effect> {
    [Queue(m)] + if connected then [Tell(PushMsgWaiting)] else []
  }

  const EXTRA_RESPONSE := 1
  const EXTRA_ACK: byte := 3

  /** What a PATH return carries: the route, and the ACK as the extra. */
  function PathReply(hops: seq<Hop>, ack6: seq<byte>): seq<byte> {
    [Packed(hops)] + (Flatten(hops) + ([EXTRA_ACK] + ack6))
  }

  /** The ACK of a text from k, alone for a direct text, inside a PATH return for a flood. */
  function Reply(cfg: Config, width: int, k: Key, p: RxPacket, salt: byte): TxPacket
    requires p.payload.TextMessage?
  {
    var m := p.payload.msg;
    var ack6 := Le32(cfg.ackHash(m.timestamp, m.attempt, m.text, k)) + [m.attempt, salt];
    var payload := if p.flood then Path(FirstByte(k), FirstByte(cfg.me), Shared(cfg.me, k), PathReply(p.hops, ack6))
                   else Ack(ack6);
    TxPacket(false, payload, [], width)
  }

  /** The text goes to the app, the answer to the sender. */
  function Delivery(cfg: Config, connected: bool, width: int, k: Key, p: RxPacket, salt: byte): seq<Effect>
    requires p.payload.TextMessage?
  {
    var m := p.payload.msg;
    var reply := Reply(cfg, width, k, p, salt);
    QueueForApp(connected, ContactMsg(k, |p.hops|, m.timestamp, m.text))
    + if cfg.fits(reply) then [Mark(reply.payload, p.time), Transmit(reply)] else []
  }

  function OnTextHeard(cfg: Config, s: State, p: RxPacket, salt: byte): seq<Effect>
    requires p.payload.TextMessage?
  {
    if p.payload.dest != FirstByte(cfg.me) then []
    else
      match Sender(cfg, s, p.payload.src, p.payload.secret)
      case None => []
      case Some(k) =>
        var touched := [Remember(k, s.contacts[k].(lastMod := p.time))];
        if p.payload.msg.txtType != 0 then touched
        else
          touched + Delivery(cfg, s.connected, FloodWidth(s), k, p, salt)
  }

  /** An ACK value heard: it takes the oldest text waiting for it. */
  function OnAckValue(acks: seq<AckLedger.PendingAck>, connected: bool, ack: U32, time: real): seq<Effect> {
    [TakeAck(ack)]
    + if AckLedger.Awaited(acks, ack) && connected
      then [Tell(PushSendConfirmed(ack, Trip(time, acks[AckLedger.Find(acks, ack)].sentAt)))]
      else []
  }

  /** Never negative, should the clocks disagree. */
  function Trip(time: real, sentAt: real): real {
    if time - sentAt < 0.0 then 0.0 else time - sentAt
  }

  /** The first outstanding request of this contact with this tag, or not older than a minute. */
  function FindRequest(q: seq<PendingReq>, k: Key, tag: U32, time: real): (i: nat)
    ensures i <= |q|
    ensures i < |q| ==> q[i].key == k && (q[i].tag == tag || time - q[i].sentAt < 60.0)
  {
    if q == [] || (q[0].key == k && (q[0].tag == tag || time - q[0].sentAt < 60.0)) then 0
    else 1 + FindRequest(q[1..], k, tag, time)
  }

  /** The push for an answer: whether a login was accepted, and by which protocol; else the body, as much as fits a frame. */
  function AnswerPush(kind: Kind, k: Key, tag: U32, data: seq<byte>): Frame
    requires 4 <= |data|
  {
    if kind != Login then PushAnswer(kind, k, tag, UpTo(data[4..], if kind == Binary || kind == Anon then 166 else 164))
    else if 13 <= |data| && data[4] == 0 then PushLoginSuccess(data[6], k, Le32(tag) + [data[7], data[12]])
    else if 6 <= |data| && data[4..6] == [0x4F, 0x4B] then PushLoginSuccess(0, k, [])
    else PushLoginFail(k)
  }

  function UpTo(b: seq<byte>, limit: nat): seq<byte> {
    if limit < |b| then b[..limit] else b
  }

  function OnAnswer(reqs: seq<PendingReq>, connected: bool, k: Key, pathLen: byte, data: seq<byte>, time: real): seq<Effect> {
    if |data| < 4 then []
    else
      var tag := FromLe32(data[..4]);
      var i := FindRequest(reqs, k, tag, time);
      if i == |reqs| then []
      else
        [TakeReply(i)]
        + if !connected then []
          else if reqs[i].kind == Cli then QueueForApp(connected, CliReply(k, pathLen, CString(data[4..])))
          else [Tell(AnswerPush(reqs[i].kind, k, tag, data))]
  }

  function RouteLearned(connected: bool, k: Key, c: Contact): seq<Effect> {
    [Remember(k, c)] + if connected then [Tell(PushPathUpdated(k))] else []
  }

  /** What follows the route in an opened PATH payload: its type, then an answer or an ACK. */
  function OnExtra(s: State, k: Key, pathLen: byte, d: seq<byte>, n: nat, time: real): seq<Effect>
    requires 1 + n < |d|
  {
    var extra := d[1 + n] % 16;
    if extra == EXTRA_RESPONSE && 2 + n < |d| then OnAnswer(s.pendingReqs, s.connected, k, pathLen, d[2 + n..], time)
    else if extra == EXTRA_ACK && 6 + n <= |d| then OnAckValue(s.pendingAcks, s.connected, FromLe32(d[2 + n..6 + n]), time)
    else []
  }

  function OnPathHeard(cfg: Config, s: State, p: RxPacket): seq<Effect>
    requires p.payload.Path?
  {
    if p.payload.plain == [] || p.payload.dest != FirstByte(cfg.me) then []
    else
      match Sender(cfg, s, p.payload.src, p.payload.secret)
      case None => []
      case Some(k) =>
        var d := Opened(p.payload.plain);
        var n := PathBytes(d[0]);
        if |d| <= 1 + n then []
        else
          var c := s.contacts[k].(outPathLen := d[0], outPath := d[1..1 + n], lastMod := p.time);
          RouteLearned(s.connected, k, c) + OnExtra(s, k, d[0], d, n, p.time)
  }

  function OnResponse(cfg: Config, s: State, p: RxPacket): seq<Effect>
    requires p.payload.Response?
  {
    if p.payload.plain == [] || p.payload.dest != FirstByte(cfg.me) then []
    else
      match Sender(cfg, s, p.payload.src, p.payload.secret)
      case None => []
      case Some(k) =>
        OnAnswer(s.pendingReqs, s.connected, k, s.contacts[k].outPathLen, Opened(p.payload.plain), p.time)
  }

  function OnAdvertHeard(cfg: Config, s: State, p: RxPacket): seq<Effect>
    requires p.payload.Advert?
  {
    var a := p.payload;
    if !a.signed || a.from == cfg.me then []
    else
      var old' := if a.from in s.contacts then s.contacts[a.from]
                  else Contact(a.kind, a.name, p.time, UNKNOWN_PATH, [], UNKNOWN_PATH, []);
      var c := Contact(a.kind, a.name, p.time, old'.outPathLen, old'.outPath, Packed(p.hops), Flatten(p.hops));
      [Remember(a.from, c)] + if s.connected then [Tell(PushNewAdvert(a.from, c))] else []
  }

  /** Control data is heard from direct neighbours only. */
  function OnControl(connected: bool, raw: seq<byte>, hops: seq<Hop>): seq<Effect> {
    if raw == [] || raw[0] < 128 || hops != [] || !connected then [] else [Tell(PushControl(UpTo(raw, 168)))]
  }

  function Doubled(n: nat, times: nat): nat
    decreases times
  {
    if times == 0 then n else Doubled(2 * n, times - 1)
  }

  /** A trace has returned once as many hops added their byte as its route has hashes. */
  function OnTrace(connected: bool, raw: seq<byte>, hops: seq<Hop>): seq<Effect> {
    if |raw| < 9 || Doubled(|hops|, raw[8] % 4) < |raw| - 9 || !connected then [] else [Tell(PushTrace(raw, Flatten(hops)))]
  }

  function Handled(cfg: Config, s: State, p: RxPacket, salt: byte): seq<Effect> {
    match p.payload
    case TextMessage(_, _, _, _) => OnTextHeard(cfg, s, p, salt)
    case Path(_, _, _, _) => OnPathHeard(cfg, s, p)
    case Ack(bytes) => if |bytes| < 4 then [] else OnAckValue(s.pendingAcks, s.connected, FromLe32(bytes[..4]), p.time)
    case Response(_, _, _, _) => OnResponse(cfg, s, p)
    case Advert(_, _, _, _, _) => OnAdvertHeard(cfg, s, p)
    case Control(raw) => OnControl(s.connected, raw, p.hops)
    case Trace(raw) => OnTrace(s.connected, raw, p.hops)
    case Channel(_, heard) => if heard.Some? then QueueForApp(s.connected, ChannelMsg(|p.hops|, heard.value)) else []
    case _ => []
  }

  function KeyOf(p: RxPacket): DedupKey {
    DedupKey(p.payload, if p.payload.Trace? then p.hops else [])
  }

  function OnReceive(cfg: Config, s: State, p: RxPacket, salt: byte): seq<Effect> {
    [Hear(KeyOf(p), p.time)]
    + if Dedup.Recent(s.seen, KeyOf(p), p.time) then []
      else Handled(cfg, Apply(s, Hear(KeyOf(p), p.time)), p, salt)
  }

  // ----- events

  datatype Event =
    | TextCommand(f: seq<byte>, now: real)
    | RequestCommand(key: Key, body: seq<byte>, kind: Kind, forceFlood: bool, now: real)
    | RepeaterCommand(key: Key, login: bool, body: seq<byte>, now: real)
    | AnonCommand(key: Key, body: seq<byte>, now: real)
    | ChannelCommand(payload: Payload, now: real)
    | ResetPath(key: Key)
    | RemoveContact(key: Key)
    | UpsertContact(key: Key, kindOf: int, name: string, lastMod: real)
    | SyncNext
    | SetAppSender(connected: bool)
    | SetPathHashMode(mode: int)
    | Receive(packet: RxPacket, salt: byte)
    | WorkerTake
    | WorkerFinish

  function Decide(cfg: Config, s: State, e: Event): seq<Effect> {
    match e
    case TextCommand(f, now) => OnText(cfg, s, f, now)
    case RequestCommand(k, body, kind, forceFlood, now) => OnRequest(cfg, s, k, body, kind, forceFlood, now)
    case RepeaterCommand(k, login, body, now) => OnRepeater(cfg, s, k, login, body, now)
    case AnonCommand(k, body, now) => OnAnon(cfg, s, k, body, now)
    case ChannelCommand(payload, now) =>
      var packet := TxPacket(false, payload, [], FloodWidth(s));
      if cfg.fits(packet) then [Mark(payload, now), Transmit(packet), Tell(RespOk)] else [Tell(RespErr(4))]
    case ResetPath(k) =>
      (if k in s.contacts then [Remember(k, s.contacts[k].(outPathLen := UNKNOWN_PATH, outPath := []))] else [])
      + [Tell(RespOk)]
    case RemoveContact(k) => [Forget(k)]
    case UpsertContact(k, kind, name, lastMod) =>
      [Remember(k, Contact(kind, name, lastMod, UNKNOWN_PATH, [], UNKNOWN_PATH, [])), Tell(RespOk)]
    case SyncNext => if s.inbox == [] then [Tell(RespNoMoreMessages)] else [Tell(Pulled(s.inbox[0])), Pull]
    case SetAppSender(c) => [Connect(c)]
    case SetPathHashMode(mode) => if 0 <= mode < 3 then [SetMode(mode), Tell(RespOk)] else [Tell(RespErr(6))]
    case Receive(p, salt) => OnReceive(cfg, s, p, salt)
    case WorkerTake => [WorkerTakes]
    case WorkerFinish => [WorkerFinishes]
  }

  function Step(cfg: Config, s: State, e: Event): State {
    ApplyAll(s, Decide(cfg, s, e))
  }

  // ----- runs

  /** The state before event n of a run. */
  function StateAt(s: State, blocks: seq<seq<Effect>>, n: nat): State
    requires n <= |blocks|
  {
    Runs.StateAt(Apply, s, blocks, n)
  }

  /** Every event does what the node decides in the state the events before it led to. */
  ghost predicate Execution(cfg: Config, s: State, events: seq<Event>, blocks: seq<seq<Effect>>) {
    && |blocks| == |events|
    && forall i :: 0 <= i < |events| ==> blocks[i] == Decide(cfg, StateAt(s, blocks, i), events[i])
  }
}
