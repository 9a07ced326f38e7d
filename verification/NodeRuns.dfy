/** What holds on every run of the node. */
module NodeRuns {
  import opened Prelude
  import opened NodeSpec
  import AckLedger
  import Dedup
  import Queues
  import Runs

  /** Every list of events has an execution. */
  lemma ExecutionExists(cfg: Config, s: State, events: seq<Event>) returns (blocks: seq<seq<Effect>>)
    ensures Execution(cfg, s, events, blocks)
  {
    blocks := Runs.ExecutionExists((t, e) => Decide(cfg, t, e), Apply, s, events);
  }

  // ----- learned routes

  /** A known route is as long as its length byte says. */
  predicate RouteOk(c: Contact) {
    c.outPathLen != UNKNOWN_PATH ==> |c.outPath| == PathBytes(c.outPathLen)
  }

  predicate RoutesOk(s: State) {
    forall k :: k in s.contacts ==> RouteOk(s.contacts[k])
  }

  /** The path is a whole number of hops of the declared width, at most 63. */
  predicate WholeHops(p: TxPacket) {
    p.direct && p.path != [] ==> 1 <= p.width <= 4 && |p.path| % p.width == 0 && |p.path| / p.width <= 63
  }

  lemma RoutedIsWhole(c: Contact, payload: Payload, width: int)
    requires RouteOk(c)
    ensures WholeHops(Routed(c, payload, width))
    ensures c.outPathLen != UNKNOWN_PATH ==>
      |Routed(c, payload, width).path| / Routed(c, payload, width).width == c.outPathLen % 64
  {
    if c.outPathLen != UNKNOWN_PATH {
      HopsOfBytes(c.outPathLen % 64, c.outPathLen / 64 + 1);
    }
  }

  lemma HopsOfBytes(hops: int, width: int)
    requires 0 <= hops && 1 <= width
    ensures hops * width % width == 0 && hops * width / width == hops
  {
    DivModUnique(hops * width, width, hops, 0);
  }

  predicate EffectOk(e: Effect) {
    && (e.Remember? ==> RouteOk(e.contact))
    && (e.Transmit? ==> WholeHops(e.packet))
  }

  predicate EffectsOk(es: seq<Effect>) {
    forall i :: 0 <= i < |es| ==> EffectOk(es[i])
  }

  lemma TextEffectsOk(cfg: Config, s: State, f: seq<byte>, now: real)
    requires RoutesOk(s)
    ensures EffectsOk(OnText(cfg, s, f, now))
  {
    if 14 <= |f| {
      var r := FirstMatch(s.contacts, FromBe(f[7..13]));
      if r.Some? {
        RoutedIsWhole(s.contacts[r.value], TextPayload(cfg, r.value, f), FloodWidth(s));
        var payload := Request(FirstByte(r.value), FirstByte(cfg.me), Shared(cfg.me, r.value), Le32(Tag(now)) + CString(f[13..]));
        RoutedIsWhole(s.contacts[r.value], payload, 1);
      }
    }
  }

  lemma RequestEffectsOk(cfg: Config, s: State, k: Key, body: seq<byte>, kind: Kind, forceFlood: bool, now: real)
    requires RoutesOk(s)
    ensures EffectsOk(OnRequest(cfg, s, k, body, kind, forceFlood, now))
  {
    if k in s.contacts {
      var payload := Request(FirstByte(k), FirstByte(cfg.me), Shared(cfg.me, k), Le32(Tag(now)) + body);
      RoutedIsWhole(s.contacts[k], payload, FloodWidth(s));
    }
  }

  lemma ToContactEffectsOk(cfg: Config, s: State, k: Key, payload: Payload, kind: Kind, now: real)
    requires RoutesOk(s) && k in s.contacts
    ensures EffectsOk(ToContact(cfg, s, k, payload, kind, now))
  {
    RoutedIsWhole(s.contacts[k], payload, 1);
  }

  lemma RepeaterEffectsOk(cfg: Config, s: State, k: Key, login: bool, body: seq<byte>, now: real)
    requires RoutesOk(s)
    ensures EffectsOk(OnRepeater(cfg, s, k, login, body, now))
  {
    if k in s.contacts {
      var password := CString(body);
      var plain := Le32(Tag(now)) + (if 15 < |password| then password[..15] else password);
      ToContactEffectsOk(cfg, s, k, AnonRequest(FirstByte(k), cfg.me, Shared(cfg.me, k), plain), Login, now);
      var status := Request(FirstByte(k), FirstByte(cfg.me), Shared(cfg.me, k), Le32(Tag(now)) + [1, 0, 0, 0, 0] + body);
      ToContactEffectsOk(cfg, s, k, status, Status, now);
    }
  }

  lemma AnonEffectsOk(cfg: Config, s: State, k: Key, body: seq<byte>, now: real)
    requires RoutesOk(s)
    ensures EffectsOk(OnAnon(cfg, s, k, body, now))
  {
    var c := if k in s.contacts then s.contacts[k] else Contact(0, "", now, 0, [], UNKNOWN_PATH, []);
    RoutedIsWhole(c, AnonRequest(FirstByte(k), cfg.me, Shared(cfg.me, k), Le32(Tag(now)) + body), 1);
  }

  lemma ReceiveEffectsOk(cfg: Config, s: State, p: RxPacket, salt: byte)
    requires RoutesOk(s)
    ensures EffectsOk(OnReceive(cfg, s, p, salt))
  {
    HandledEffectsOk(cfg, Apply(s, Hear(KeyOf(p), p.time)), p, salt);
  }

  lemma HandledEffectsOk(cfg: Config, s: State, p: RxPacket, salt: byte)
    requires RoutesOk(s)
    ensures EffectsOk(Handled(cfg, s, p, salt))
  {
    if p.payload.Path? {
      PathEffectsOk(cfg, s, p);
    } else if p.payload.Advert? {
      assert EffectsOk(OnAdvertHeard(cfg, s, p));
    } else if p.payload.TextMessage? {
      assert EffectsOk(OnTextHeard(cfg, s, p, salt));
    }
  }

  lemma PathEffectsOk(cfg: Config, s: State, p: RxPacket)
    requires p.payload.Path?
    ensures EffectsOk(OnPathHeard(cfg, s, p))
  {}

  lemma DecideOk(cfg: Config, s: State, e: Event)
    requires RoutesOk(s)
    ensures EffectsOk(Decide(cfg, s, e))
  {
    match e
    case TextCommand(f, now) => TextEffectsOk(cfg, s, f, now);
    case RequestCommand(k, body, kind, forceFlood, now) => RequestEffectsOk(cfg, s, k, body, kind, forceFlood, now);
    case RepeaterCommand(k, login, body, now) => RepeaterEffectsOk(cfg, s, k, login, body, now);
    case AnonCommand(k, body, now) => AnonEffectsOk(cfg, s, k, body, now);
    case Receive(p, salt) => ReceiveEffectsOk(cfg, s, p, salt);
    case _ =>
  }

  /**
   * From well-formed contacts, every reachable state has well-formed routes, and every
   * packet ever handed to the transmitter over a route carries whole hops.
   */
  lemma RoutesAlwaysOk(cfg: Config, s: State, events: seq<Event>, blocks: seq<seq<Effect>>, n: nat)
    requires RoutesOk(s) && Execution(cfg, s, events, blocks) && n <= |events|
    ensures RoutesOk(StateAt(s, blocks, n)) && EffectsOk(Runs.Joined(blocks, n))
  {
    forall i, j | 0 <= i < n && RoutesOk(StateAt(s, blocks, i)) && 0 <= j < |blocks[i]|
      ensures EffectOk(blocks[i][j])
    {
      DecideOk(cfg, StateAt(s, blocks, i), events[i]);
    }
    Runs.RunKeeps(Apply, RoutesOk, EffectOk, s, blocks, n);
  }

  // ----- duplicates

  /** The marks an effect sets, as the dedup map sees them. */
  function MarkOf(e: Effect): seq<Dedup.Event<DedupKey>> {
    match e
    case Hear(key, at) => [Dedup.Heard(key, at)]
    case Mark(payload, at) => [Dedup.Sent(DedupKey(payload, []), at)]
    case _ => []
  }

  function Marks(es: seq<Effect>): seq<Dedup.Event<DedupKey>> {
    Runs.Collect(MarkOf, es)
  }

  lemma {:induction false} MarkingPrefix(a: seq<Dedup.Event<DedupKey>>, b: seq<Dedup.Event<DedupKey>>, n: nat)
    requires n <= |a|
    ensures Dedup.Marking(a + b, n) == Dedup.Marking(a, n)
  {
    if n != 0 {
      MarkingPrefix(a, b, n - 1);
    }
  }

  function Marked(marks: seq<Dedup.Event<DedupKey>>): map<DedupKey, real> {
    Dedup.Marking(marks, |marks|)
  }

  /** One effect moves the node's map as its marks move the dedup map. */
  lemma EffectMarks(s: State, marks: seq<Dedup.Event<DedupKey>>, e: Effect)
    requires s.seen == Marked(marks)
    ensures Apply(s, e).seen == Marked(marks + MarkOf(e))
  {
    MarkingPrefix(marks, MarkOf(e), |marks|);
    if MarkOf(e) == [] {
      assert marks + [] == marks;
    }
  }

  /** The node's map is the map of its marks. */
  lemma SeenIsMarking(s: State, es: seq<Effect>)
    requires s.seen == map[]
    ensures ApplyAll(s, es).seen == Marked(Marks(es))
  {
    forall t: State, e, marks | t.seen == Marked(marks)
      ensures Apply(t, e).seen == Marked(marks + MarkOf(e))
    {
      EffectMarks(t, marks, e);
    }
    Runs.Projects(Apply, (t: State) => t.seen, MarkOf, Marked, s, es);
  }

  /** When an event happens; settings and pulls need no time. */
  function TimeOf(e: Event): Option<real> {
    match e
    case TextCommand(_, now) => Some(now)
    case RequestCommand(_, _, _, _, now) => Some(now)
    case RepeaterCommand(_, _, _, now) => Some(now)
    case AnonCommand(_, _, now) => Some(now)
    case ChannelCommand(_, now) => Some(now)
    case Receive(p, _) => Some(p.time)
    case _ => None
  }

  /** One clock that never runs backwards. */
  predicate Clocked(events: seq<Event>) {
    forall i, j :: 0 <= i < j < |events| && TimeOf(events[i]).Some? && TimeOf(events[j]).Some? ==>
      TimeOf(events[i]).value <= TimeOf(events[j]).value
  }

  /** All marks of a list carry this time. */
  predicate MarkedAt(es: seq<Effect>, t: Option<real>) {
    forall i :: 0 <= i < |es| && (es[i].Hear? || es[i].Mark?) ==> t == Some(es[i].at)
  }

  lemma DecideMarksNow(cfg: Config, s: State, e: Event)
    ensures MarkedAt(Decide(cfg, s, e), TimeOf(e))
  {
    if e.Receive? {
      ReceiveMarksNow(cfg, s, e.packet, e.salt);
    }
  }

  lemma ReceiveMarksNow(cfg: Config, s: State, p: RxPacket, salt: byte)
    ensures MarkedAt(OnReceive(cfg, s, p, salt), Some(p.time))
  {
    HandledMarksNow(cfg, Apply(s, Hear(KeyOf(p), p.time)), p, salt);
  }

  lemma HandledMarksNow(cfg: Config, s: State, p: RxPacket, salt: byte)
    ensures MarkedAt(Handled(cfg, s, p, salt), Some(p.time))
  {
    if p.payload.Path? {
      PathSetsNoMark(cfg, s, p);
    }
  }

  lemma PathSetsNoMark(cfg: Config, s: State, p: RxPacket)
    requires p.payload.Path?
    ensures MarkedAt(OnPathHeard(cfg, s, p), None)
  {}

  lemma MarksTimed(es: seq<Effect>, t: Option<real>)
    requires MarkedAt(es, t)
    ensures forall i :: 0 <= i < |Marks(es)| ==> t == Some(Marks(es)[i].time)
  {
    Runs.CollectAll(MarkOf, (m: Dedup.Event<DedupKey>) => t == Some(m.time), es);
  }

  /** The marks come in order, none later than an event still to come. */
  ghost predicate Timely(marks: seq<Dedup.Event<DedupKey>>, events: seq<Event>, n: nat) {
    && Dedup.Ordered(marks)
    && forall i, j :: 0 <= i < |marks| && n <= j < |events| && TimeOf(events[j]).Some? ==>
      marks[i].time <= TimeOf(events[j]).value
  }

  lemma MarksCombine(a: seq<Dedup.Event<DedupKey>>, b: seq<Dedup.Event<DedupKey>>, events: seq<Event>, n: nat)
    requires n < |events| && Clocked(events) && Timely(a, events, n)
    requires forall i :: 0 <= i < |b| ==> TimeOf(events[n]) == Some(b[i].time)
    ensures Timely(a + b, events, n + 1)
  {
    forall i, j | 0 <= i < |a + b| && n + 1 <= j < |events| && TimeOf(events[j]).Some?
      ensures (a + b)[i].time <= TimeOf(events[j]).value
    {
      assert (a + b)[i] == if i < |a| then a[i] else b[i - |a|];
    }
  }

  lemma MarksGrow(front: seq<Effect>, now: seq<Effect>, all: seq<Effect>, events: seq<Event>, n: nat)
    requires n < |events| && Clocked(events) && all == front + now
    requires Timely(Marks(front), events, n) && MarkedAt(now, TimeOf(events[n]))
    ensures Timely(Marks(all), events, n + 1)
  {
    MarksTimed(now, TimeOf(events[n]));
    Runs.CollectAppend(MarkOf, front, now);
    MarksCombine(Marks(front), Marks(now), events, n);
  }

  lemma RunTimely(cfg: Config, s: State, events: seq<Event>, blocks: seq<seq<Effect>>, n: nat)
    requires Execution(cfg, s, events, blocks) && n <= |events| && Clocked(events)
    ensures Timely(Marks(Runs.Joined(blocks, n)), events, n)
  {
    var timely := (es: seq<Effect>, k: nat) => Timely(Marks(es), events, k);
    assert timely([], 0);
    forall i: nat | i < n ensures Runs.PassedOn(timely, blocks, i) {
      if timely(Runs.Joined(blocks, i), i) {
        var front := Runs.Joined(blocks, i);
        DecideMarksNow(cfg, StateAt(s, blocks, i), events[i]);
        MarksGrow(front, blocks[i], front + blocks[i], events, i);
      }
    }
    Runs.JoinedGrows(timely, blocks, n);
  }

  /** Some mark of this payload is less than 600 seconds old. */
  ghost predicate MarkedLately(marks: seq<Dedup.Event<DedupKey>>, key: DedupKey, t: real) {
    exists i :: 0 <= i < |marks| && !Dedup.Duplicate(marks, i) && marks[i].key == key && t - marks[i].time < 600.0
  }

  /**
   * On every run with one clock: a packet is taken for a duplicate if and only if its
   * payload was sent by the node itself, or accepted, less than 600 seconds before.
   */
  lemma DuplicatesOnRuns(cfg: Config, s: State, events: seq<Event>, blocks: seq<seq<Effect>>, n: nat)
    requires s.seen == map[] && Execution(cfg, s, events, blocks) && Clocked(events)
    requires n < |events| && events[n].Receive?
    ensures
      var p := events[n].packet;
      Dedup.Recent(StateAt(s, blocks, n).seen, KeyOf(p), p.time)
      <==> MarkedLately(Marks(Runs.Joined(blocks, n)), KeyOf(p), p.time)
  {
    SeenIsMarking(s, Runs.Joined(blocks, n));
    RunTimely(cfg, s, events, blocks, n);
    NextHeard(Marks(Runs.Joined(blocks, n)), KeyOf(events[n].packet), events[n].packet.time, events, n);
  }

  /** A duplicate changes nothing, and the app hears nothing. */
  lemma DuplicateIgnored(cfg: Config, s: State, p: RxPacket, salt: byte)
    requires Dedup.Recent(s.seen, KeyOf(p), p.time)
    ensures Step(cfg, s, Receive(p, salt)) == s && Told(Decide(cfg, s, Receive(p, salt))) == []
  {
    var h := Hear(KeyOf(p), p.time);
    assert OnReceive(cfg, s, p, salt) == [h];
    assert Apply(s, h) == s;
    Runs.FoldLast(Apply, s, [], h);
    Runs.CollectOne(ToldBy, h);
    assert [] + [h] == [h];
  }

  /** Whatever is handed to the transmitter is marked in the same block, at the time of the event. */
  predicate TransmitsMarked(es: seq<Effect>, t: Option<real>) {
    forall i :: 0 <= i < |es| && es[i].Transmit? ==> t.Some? && Mark(es[i].packet.payload, t.value) in es
  }

  lemma MarkedTogether(front: seq<Effect>, back: seq<Effect>, t: Option<real>)
    requires TransmitsMarked(front, t) && TransmitsMarked(back, t)
    ensures TransmitsMarked(front + back, t)
  {
    forall i | 0 <= i < |front + back| && (front + back)[i].Transmit?
      ensures t.Some? && Mark((front + back)[i].packet.payload, t.value) in front + back
    {
      if i < |front| {
        assert front[i].Transmit?;
      } else {
        assert back[i - |front|].Transmit?;
      }
    }
  }

  lemma FourMarked(payload: Payload, packet: TxPacket, other: Effect, answer: Frame, now: real)
    requires packet.payload == payload && !other.Transmit?
    ensures TransmitsMarked([Mark(payload, now), other, Transmit(packet), Tell(answer)], Some(now))
    ensures TransmitsMarked([Mark(payload, now), Transmit(packet), other, Tell(answer)], Some(now))
    ensures TransmitsMarked([Transmit(packet), Mark(payload, now), other, Tell(answer)], Some(now))
  {
    var m := Mark(payload, now);
    assert [m, other, Transmit(packet), Tell(answer)][0] == m;
    assert [m, Transmit(packet), other, Tell(answer)][0] == m;
    assert [Transmit(packet), m, other, Tell(answer)][1] == m;
  }

  lemma TextMarked(cfg: Config, s: State, f: seq<byte>, now: real)
    ensures TransmitsMarked(OnText(cfg, s, f, now), Some(now))
  {
    if 14 <= |f| && FirstMatch(s.contacts, FromBe(f[7..13])).Some? {
      var k := FirstMatch(s.contacts, FromBe(f[7..13])).value;
      var es := OnText(cfg, s, f, now);
      if |es| == 4 && f[1] == 0 {
        FourMarked(es[0].payload, es[2].packet, es[1], es[3].frame, now);
      } else if |es| == 4 {
        FourMarked(es[0].payload, es[1].packet, es[2], es[3].frame, now);
      }
    }
  }

  lemma ToContactMarked(cfg: Config, s: State, k: Key, payload: Payload, kind: Kind, now: real)
    requires k in s.contacts
    ensures TransmitsMarked(ToContact(cfg, s, k, payload, kind, now), Some(now))
  {
    var es := ToContact(cfg, s, k, payload, kind, now);
    if |es| == 4 {
      FourMarked(es[0].payload, es[1].packet, es[2], es[3].frame, now);
    }
  }

  lemma RequestMarked(cfg: Config, s: State, k: Key, body: seq<byte>, kind: Kind, forceFlood: bool, now: real)
    ensures TransmitsMarked(OnRequest(cfg, s, k, body, kind, forceFlood, now), Some(now))
  {
    var es := OnRequest(cfg, s, k, body, kind, forceFlood, now);
    if |es| == 4 {
      FourMarked(es[1].payload, es[0].packet, es[2], es[3].frame, now);
    }
  }

  lemma RepeaterMarked(cfg: Config, s: State, k: Key, login: bool, body: seq<byte>, now: real)
    ensures TransmitsMarked(OnRepeater(cfg, s, k, login, body, now), Some(now))
  {
    if k in s.contacts {
      var password := CString(body);
      var payload :=
        if login then
          AnonRequest(FirstByte(k), cfg.me, Shared(cfg.me, k),
                      Le32(Tag(now)) + (if 15 < |password| then password[..15] else password))
        else Request(FirstByte(k), FirstByte(cfg.me), Shared(cfg.me, k), Le32(Tag(now)) + [1, 0, 0, 0, 0] + body);
      ToContactMarked(cfg, s, k, payload, if login then Login else Status, now);
    }
  }

  lemma AnonMarked(cfg: Config, s: State, k: Key, body: seq<byte>, now: real)
    ensures TransmitsMarked(OnAnon(cfg, s, k, body, now), Some(now))
  {
    var es := OnAnon(cfg, s, k, body, now);
    var known := if k in s.contacts then 0 else 1;
    if |es| == known + 4 {
      FourMarked(es[known].payload, es[known + 1].packet, es[known + 2], es[known + 3].frame, now);
      assert es[known..] == [es[known], es[known + 1], es[known + 2], es[known + 3]];
      MarkedTogether(es[..known], es[known..], Some(now));
      assert es == es[..known] + es[known..];
    }
  }

  lemma TextHeardMarked(cfg: Config, s: State, p: RxPacket, salt: byte)
    requires p.payload.TextMessage?
    ensures TransmitsMarked(OnTextHeard(cfg, s, p, salt), Some(p.time))
  {
    var es := OnTextHeard(cfg, s, p, salt);
    if 2 <= |es| && es[|es| - 1].Transmit? {
      assert es[|es| - 2] == Mark(es[|es| - 1].packet.payload, p.time);
    }
  }

  lemma PathSendsNothing(cfg: Config, s: State, p: RxPacket)
    requires p.payload.Path?
    ensures TransmitsMarked(OnPathHeard(cfg, s, p), Some(p.time))
  {}

  lemma ReceiveMarked(cfg: Config, s: State, p: RxPacket, salt: byte)
    ensures TransmitsMarked(OnReceive(cfg, s, p, salt), Some(p.time))
  {
    var h := Hear(KeyOf(p), p.time);
    HandledMarked(cfg, Apply(s, h), p, salt);
    MarkedTogether([h], Handled(cfg, Apply(s, h), p, salt), Some(p.time));
    assert [h] + [] == [h];
  }

  lemma HandledMarked(cfg: Config, s: State, p: RxPacket, salt: byte)
    ensures TransmitsMarked(Handled(cfg, s, p, salt), Some(p.time))
  {
    match p.payload
    case TextMessage(_, _, _, _) => TextHeardMarked(cfg, s, p, salt);
    case Path(_, _, _, _) => PathSendsNothing(cfg, s, p);
    case _ =>
  }

  lemma ChannelMarked(cfg: Config, s: State, payload: Payload, now: real)
    ensures TransmitsMarked(Decide(cfg, s, ChannelCommand(payload, now)), Some(now))
  {
    var es := Decide(cfg, s, ChannelCommand(payload, now));
    if |es| == 3 {
      assert es[0] == Mark(es[1].packet.payload, now);
    }
  }

  /** Whatever event makes the node transmit, the payload is marked with it. */
  lemma SendsAreMarked(cfg: Config, s: State, e: Event)
    ensures TransmitsMarked(Decide(cfg, s, e), TimeOf(e))
  {
    match e
    case TextCommand(f, now) => TextMarked(cfg, s, f, now);
    case RequestCommand(k, body, kind, forceFlood, now) => RequestMarked(cfg, s, k, body, kind, forceFlood, now);
    case RepeaterCommand(k, login, body, now) => RepeaterMarked(cfg, s, k, login, body, now);
    case AnonCommand(k, body, now) => AnonMarked(cfg, s, k, body, now);
    case ChannelCommand(payload, now) => ChannelMarked(cfg, s, payload, now);
    case Receive(p, salt) => ReceiveMarked(cfg, s, p, salt);
    case _ =>
  }

  lemma MarkIsMarkedLately(es: seq<Effect>, payload: Payload, at: real, t: real)
    requires Mark(payload, at) in es && t - at < 600.0
    ensures MarkedLately(Marks(es), DedupKey(payload, []), t)
  {
    var sent := Dedup.Sent(DedupKey(payload, []), at);
    assert MarkOf(Mark(payload, at)) == [sent];
    Runs.CollectContains(MarkOf, es, Mark(payload, at), sent);
    var i :| 0 <= i < |Marks(es)| && Marks(es)[i] == sent;
    assert !Dedup.Duplicate(Marks(es), i);
  }

  /**
   * On every run with one clock: a payload the node handed to its transmitter less than 600 seconds before is a
   * duplicate when it is heard; it changes nothing, and the app is told nothing.
   */
  lemma OwnSendsAreDuplicates(cfg: Config, s: State, events: seq<Event>, blocks: seq<seq<Effect>>, n: nat, i: nat, packet: TxPacket)
    requires s.seen == map[] && Execution(cfg, s, events, blocks) && Clocked(events)
    requires i < n < |events| && events[n].Receive? && Transmit(packet) in blocks[i]
    requires events[n].packet.payload == packet.payload && !packet.payload.Trace?
    requires TimeOf(events[i]).Some? ==> events[n].packet.time - TimeOf(events[i]).value < 600.0
    ensures Dedup.Recent(StateAt(s, blocks, n).seen, KeyOf(events[n].packet), events[n].packet.time)
    ensures StateAt(s, blocks, n + 1) == StateAt(s, blocks, n) && Told(blocks[n]) == []
  {
    SendsAreMarked(cfg, StateAt(s, blocks, i), events[i]);
    var k :| 0 <= k < |blocks[i]| && blocks[i][k] == Transmit(packet);
    assert blocks[i][k].Transmit?;
    var at := TimeOf(events[i]).value;
    Runs.JoinedContains(blocks, n, i, Mark(packet.payload, at));
    MarkIsMarkedLately(Runs.Joined(blocks, n), packet.payload, at, events[n].packet.time);
    DuplicatesOnRuns(cfg, s, events, blocks, n);
    DuplicateIgnored(cfg, StateAt(s, blocks, n), events[n].packet, events[n].salt);
    Runs.StateAtNext(Apply, s, blocks, n);
  }

  lemma NextHeard(marks: seq<Dedup.Event<DedupKey>>, key: DedupKey, t: real, events: seq<Event>, n: nat)
    requires n < |events| && Clocked(events) && TimeOf(events[n]) == Some(t) && Timely(marks, events, n)
    ensures Dedup.Recent(Dedup.Marking(marks, |marks|), key, t) <==> MarkedLately(marks, key, t)
  {
    var heard := [Dedup.Heard(key, t)];
    var longer := marks + heard;
    MarksCombine(marks, heard, events, n);
    Dedup.DuplicateMeaning(longer, |marks|);
    MarkingPrefix(marks, heard, |marks|);
    forall i | 0 <= i < |marks|
      ensures longer[i] == marks[i] && Dedup.Duplicate(longer, i) == Dedup.Duplicate(marks, i)
    {
      MarkingPrefix(marks, heard, i);
    }
  }

  // ----- delivery confirmations

  /** A direct text sent, or an ACK heard, as the ledger of pending ACKs sees it. */
  function AckEventOf(e: Effect): seq<AckLedger.Event> {
    match e
    case AwaitAck(ack, at) => [AckLedger.TextSent(ack, at)]
    case TakeAck(ack) => [AckLedger.AckHeard(ack)]
    case _ => []
  }

  function AckEvents(es: seq<Effect>): seq<AckLedger.Event> {
    Runs.Collect(AckEventOf, es)
  }

  function Ledger(acks: seq<AckLedger.Event>): seq<AckLedger.PendingAck> {
    AckLedger.Pending(acks, |acks|)
  }

  lemma EffectAcks(s: State, acks: seq<AckLedger.Event>, e: Effect)
    requires s.pendingAcks == Ledger(acks)
    ensures Apply(s, e).pendingAcks == Ledger(acks + AckEventOf(e))
  {
    AckLedger.PendingPrefix(acks, AckEventOf(e), |acks|);
    if AckEventOf(e) == [] {
      assert acks + [] == acks;
    }
  }

  lemma PendingIsLedger(s: State, es: seq<Effect>)
    requires s.pendingAcks == []
    ensures ApplyAll(s, es).pendingAcks == Ledger(AckEvents(es))
  {
    forall t: State, e, acks | t.pendingAcks == Ledger(acks)
      ensures Apply(t, e).pendingAcks == Ledger(acks + AckEventOf(e))
    {
      EffectAcks(t, acks, e);
    }
    Runs.Projects(Apply, (t: State) => t.pendingAcks, AckEventOf, Ledger, s, es);
  }

  /** The hashes of the confirmations pushed to the app. */
  function ConfirmedBy(e: Effect): seq<U32> {
    if e.Tell? && e.frame.PushSendConfirmed? then [e.frame.ack] else []
  }

  function Confirmed(es: seq<Effect>): seq<U32> {
    Runs.Collect(ConfirmedBy, es)
  }

  /** A block sends at most one text or hears at most one ACK, and confirms only an ACK waited for. */
  predicate AckShape(s: State, es: seq<Effect>) {
    var acks := AckEvents(es);
    || (acks == [] && Confirmed(es) == [])
    || (|acks| == 1 && acks[0].TextSent? && Confirmed(es) == [])
    || (|acks| == 1 && acks[0].AckHeard? && Confirmed(es) == [])
    || (|acks| == 1 && acks[0].AckHeard? && Confirmed(es) == [acks[0].ack] && AckLedger.Awaited(s.pendingAcks, acks[0].ack))
  }

  predicate Quiet(e: Effect) {
    AckEventOf(e) == [] && ConfirmedBy(e) == []
  }

  lemma QuietShape(s: State, es: seq<Effect>)
    requires forall i :: 0 <= i < |es| ==> Quiet(es[i])
    ensures AckEvents(es) == [] && Confirmed(es) == [] && AckShape(s, es)
  {
    Runs.CollectNone(AckEventOf, es);
    Runs.CollectNone(ConfirmedBy, es);
  }

  lemma QuietThen(s: State, quiet: seq<Effect>, es: seq<Effect>)
    requires forall i :: 0 <= i < |quiet| ==> Quiet(quiet[i])
    requires AckShape(s, es)
    ensures AckShape(s, quiet + es)
  {
    QuietShape(s, quiet);
    Runs.CollectAppend(AckEventOf, quiet, es);
    Runs.CollectAppend(ConfirmedBy, quiet, es);
    assert [] + AckEvents(es) == AckEvents(es) && [] + Confirmed(es) == Confirmed(es);
  }

  lemma ThenQuiet(s: State, es: seq<Effect>, quiet: seq<Effect>)
    requires forall i :: 0 <= i < |quiet| ==> Quiet(quiet[i])
    requires AckShape(s, es)
    ensures AckShape(s, es + quiet)
  {
    QuietShape(s, quiet);
    Runs.CollectAppend(AckEventOf, es, quiet);
    Runs.CollectAppend(ConfirmedBy, es, quiet);
    assert AckEvents(es) + [] == AckEvents(es) && Confirmed(es) + [] == Confirmed(es);
  }

  lemma AckValueShape(s: State, ack: U32, time: real)
    ensures AckShape(s, OnAckValue(s.pendingAcks, s.connected, ack, time))
  {
    Runs.CollectOne(AckEventOf, TakeAck(ack));
    Runs.CollectOne(ConfirmedBy, TakeAck(ack));
    var es := OnAckValue(s.pendingAcks, s.connected, ack, time);
    assert es[..1] == [TakeAck(ack)] && es == es[..1] + es[1..];
    Runs.CollectAppend(AckEventOf, es[..1], es[1..]);
    Runs.CollectAppend(ConfirmedBy, es[..1], es[1..]);
    if |es| == 2 {
      assert es[1..] == [es[1]];
      Runs.CollectOne(AckEventOf, es[1]);
      Runs.CollectOne(ConfirmedBy, es[1]);
    }
  }

  lemma TextShape(s: State, payload: Payload, ack: U32, now: real, packet: TxPacket, answer: Frame)
    requires !answer.PushSendConfirmed?
    ensures AckShape(s, [Mark(payload, now), AwaitAck(ack, now), Transmit(packet), Tell(answer)])
  {
    var one := [AwaitAck(ack, now)];
    Runs.CollectOne(AckEventOf, AwaitAck(ack, now));
    Runs.CollectOne(ConfirmedBy, AwaitAck(ack, now));
    QuietThen(s, [Mark(payload, now)], one);
    ThenQuiet(s, [Mark(payload, now)] + one, [Transmit(packet), Tell(answer)]);
    assert ([Mark(payload, now)] + one) + [Transmit(packet), Tell(answer)]
        == [Mark(payload, now), AwaitAck(ack, now), Transmit(packet), Tell(answer)];
  }

  lemma ExtraShape(s: State, k: Key, pathLen: byte, d: seq<byte>, n: nat, time: real)
    requires 1 + n < |d|
    ensures AckShape(s, OnExtra(s, k, pathLen, d, n, time))
  {
    if d[1 + n] % 16 == EXTRA_ACK && 6 + n <= |d| {
      AckValueShape(s, FromLe32(d[2 + n..6 + n]), time);
    } else {
      QuietShape(s, OnExtra(s, k, pathLen, d, n, time));
    }
  }

  lemma LearnedShape(s: State, k: Key, c: Contact, d: seq<byte>, n: nat, time: real)
    requires 1 + n < |d|
    ensures AckShape(s, RouteLearned(s.connected, k, c) + OnExtra(s, k, d[0], d, n, time))
  {
    ExtraShape(s, k, d[0], d, n, time);
    QuietThen(s, RouteLearned(s.connected, k, c), OnExtra(s, k, d[0], d, n, time));
  }

  /** A PATH return is the route learned, and then what came with it. */
  lemma PathShape(cfg: Config, s: State, p: RxPacket)
    requires p.payload.Path?
    ensures AckShape(s, OnPathHeard(cfg, s, p))
  {
    if OnPathHeard(cfg, s, p) == [] {
      QuietShape(s, []);
    } else {
      var k := Sender(cfg, s, p.payload.src, p.payload.secret).value;
      var d := Opened(p.payload.plain);
      var n := PathBytes(d[0]);
      var c := s.contacts[k].(outPathLen := d[0], outPath := d[1..1 + n], lastMod := p.time);
      LearnedShape(s, k, c, d, n, p.time);
    }
  }

  lemma HandledShape(cfg: Config, s: State, p: RxPacket, salt: byte)
    ensures AckShape(s, Handled(cfg, s, p, salt))
  {
    if p.payload.Path? {
      PathShape(cfg, s, p);
    } else if p.payload.Ack? && 4 <= |p.payload.bytes| {
      AckValueShape(s, FromLe32(p.payload.bytes[..4]), p.time);
    } else {
      OthersQuiet(cfg, s, p, salt);
      QuietShape(s, Handled(cfg, s, p, salt));
    }
  }

  lemma OthersQuiet(cfg: Config, s: State, p: RxPacket, salt: byte)
    requires !p.payload.Path? && !(p.payload.Ack? && 4 <= |p.payload.bytes|)
    ensures forall i :: 0 <= i < |Handled(cfg, s, p, salt)| ==> Quiet(Handled(cfg, s, p, salt)[i])
  {
    match p.payload
    case TextMessage(_, _, _, _) => TextHeardQuiet(cfg, s, p, salt);
    case Response(_, _, _, _) => ResponseQuiet(cfg, s, p);
    case _ =>
  }

  lemma TextHeardQuiet(cfg: Config, s: State, p: RxPacket, salt: byte)
    requires p.payload.TextMessage?
    ensures forall i :: 0 <= i < |OnTextHeard(cfg, s, p, salt)| ==> Quiet(OnTextHeard(cfg, s, p, salt)[i])
  {}

  lemma ResponseQuiet(cfg: Config, s: State, p: RxPacket)
    requires p.payload.Response?
    ensures forall i :: 0 <= i < |OnResponse(cfg, s, p)| ==> Quiet(OnResponse(cfg, s, p)[i])
  {}

  lemma ReceiveShape(cfg: Config, s: State, p: RxPacket, salt: byte)
    ensures AckShape(s, OnReceive(cfg, s, p, salt))
  {
    var h := Hear(KeyOf(p), p.time);
    if Dedup.Recent(s.seen, KeyOf(p), p.time) {
      QuietShape(s, OnReceive(cfg, s, p, salt));
    } else {
      HandledShape(cfg, Apply(s, h), p, salt);
      QuietThen(s, [h], Handled(cfg, Apply(s, h), p, salt));
    }
  }

  lemma DecideShape(cfg: Config, s: State, e: Event)
    ensures AckShape(s, Decide(cfg, s, e))
  {
    var es := Decide(cfg, s, e);
    if e.Receive? {
      ReceiveShape(cfg, s, e.packet, e.salt);
    } else if e.TextCommand? && |es| == 4 && es[1].AwaitAck? {
      TextShape(s, es[0].payload, es[1].ack, e.now, es[2].packet, es[3].frame);
    } else {
      assert forall i :: 0 <= i < |es| ==> Quiet(es[i]);
      QuietShape(s, es);
    }
  }

  function Count<T(==)>(xs: seq<T>, x: T): nat {
    multiset(xs)[x]
  }

  /** Confirmations pushed never outnumber ACKs that found their text. */
  ghost predicate Covered(confirmed: seq<U32>, acks: seq<AckLedger.Event>, ack: U32) {
    Count(confirmed, ack) <= AckLedger.ConfirmedWith(acks, |acks|, ack)
  }

  lemma CoveredGrows(confirmed: seq<U32>, acks: seq<AckLedger.Event>, x: seq<U32>, e: AckLedger.Event, ack: U32)
    requires Covered(confirmed, acks, ack)
    requires x == [] || (e.AckHeard? && x == [e.ack] && AckLedger.Awaited(Ledger(acks), e.ack))
    ensures Covered(confirmed + x, acks + [e], ack)
  {
    AckLedger.ConfirmedSnoc(acks, e, ack);
    if x == [] {
      assert confirmed + x == confirmed;
    }
  }

  lemma PushesGrow(s: State, front: seq<Effect>, now: seq<Effect>, ack: U32)
    requires s.pendingAcks == Ledger(AckEvents(front)) && AckShape(s, now)
    requires Covered(Confirmed(front), AckEvents(front), ack)
    ensures Covered(Confirmed(front + now), AckEvents(front + now), ack)
  {
    Runs.CollectAppend(AckEventOf, front, now);
    Runs.CollectAppend(ConfirmedBy, front, now);
    var a, b := AckEvents(front), AckEvents(now);
    if b == [] {
      assert a + b == a && Confirmed(front) + [] == Confirmed(front);
    } else {
      assert b == [b[0]];
      CoveredGrows(Confirmed(front), a, Confirmed(now), b[0], ack);
    }
  }

  /**
   * On every run that starts with nothing pending: for every hash, the confirmations
   * pushed, by plain ACKs and PATH returns together, never exceed the direct texts sent with it.
   */
  lemma ConfirmationsBounded(cfg: Config, s: State, events: seq<Event>, blocks: seq<seq<Effect>>, n: nat, ack: U32)
    requires s.pendingAcks == [] && Execution(cfg, s, events, blocks) && n <= |events|
    ensures
      var es := Runs.Joined(blocks, n);
      Count(Confirmed(es), ack) <= AckLedger.SentWith(AckEvents(es), |AckEvents(es)|, ack)
  {
    PushesCoveredOnRuns(cfg, s, events, blocks, n, ack);
    var acks := AckEvents(Runs.Joined(blocks, n));
    AckLedger.AcksConserved(acks, |acks|, ack);
  }

  lemma PushesCoveredOnRuns(cfg: Config, s: State, events: seq<Event>, blocks: seq<seq<Effect>>, n: nat, ack: U32)
    requires s.pendingAcks == [] && Execution(cfg, s, events, blocks) && n <= |events|
    ensures Covered(Confirmed(Runs.Joined(blocks, n)), AckEvents(Runs.Joined(blocks, n)), ack)
  {
    var covered := (es: seq<Effect>, k: nat) => Covered(Confirmed(es), AckEvents(es), ack);
    assert covered([], 0);
    forall i: nat | i < n ensures Runs.PassedOn(covered, blocks, i) {
      if covered(Runs.Joined(blocks, i), i) {
        BlockCovered(cfg, s, Runs.Joined(blocks, i), blocks[i], events[i], ack);
      }
    }
    Runs.JoinedGrows(covered, blocks, n);
  }

  lemma BlockCovered(cfg: Config, s: State, front: seq<Effect>, now: seq<Effect>, e: Event, ack: U32)
    requires s.pendingAcks == [] && now == Decide(cfg, ApplyAll(s, front), e)
    requires Covered(Confirmed(front), AckEvents(front), ack)
    ensures Covered(Confirmed(front + now), AckEvents(front + now), ack)
  {
    PendingIsLedger(s, front);
    DecideShape(cfg, ApplyAll(s, front), e);
    PushesGrow(ApplyAll(s, front), front, now, ack);
  }

  /**
   * On every run: a direct text whose hash was not heard since is still pending while
   * fewer than 32 further direct texts were sent.
   */
  lemma TextStillPending(cfg: Config, s: State, events: seq<Event>, blocks: seq<seq<Effect>>, n: nat, sent: nat)
    requires s.pendingAcks == [] && Execution(cfg, s, events, blocks) && n <= |events|
    requires
      var acks := AckEvents(Runs.Joined(blocks, n));
      && sent < |acks| && acks[sent].TextSent?
      && (forall m :: sent < m < |acks| && acks[m].AckHeard? ==> acks[m].ack != acks[sent].ack)
      && AckLedger.TextsBetween(acks, sent + 1, |acks|) < 32
    ensures AckLedger.Awaited(StateAt(s, blocks, n).pendingAcks, AckEvents(Runs.Joined(blocks, n))[sent].ack)
  {
    var acks := AckEvents(Runs.Joined(blocks, n));
    PendingIsLedger(s, Runs.Joined(blocks, n));
    AckLedger.WaitsFor32Texts(acks, sent, |acks|);
  }

  // ----- the inbox

  function InboxEventOf(e: Effect): seq<Queues.InboxEvent<Message>> {
    match e
    case Queue(m) => [Queues.Queued(m)]
    case Pull => [Queues.Pull]
    case _ => []
  }

  function InboxEvents(es: seq<Effect>): seq<Queues.InboxEvent<Message>> {
    Runs.Collect(InboxEventOf, es)
  }

  function Inbox(evs: seq<Queues.InboxEvent<Message>>): seq<Message> {
    Queues.InboxAfter(evs, |evs|).inbox
  }

  lemma {:induction false} InboxPrefix(a: seq<Queues.InboxEvent<Message>>, b: seq<Queues.InboxEvent<Message>>, n: nat)
    requires n <= |a|
    ensures Queues.InboxAfter(a + b, n) == Queues.InboxAfter(a, n)
  {
    if n != 0 {
      InboxPrefix(a, b, n - 1);
    }
  }

  lemma EffectInbox(s: State, evs: seq<Queues.InboxEvent<Message>>, e: Effect)
    requires s.inbox == Inbox(evs)
    ensures Apply(s, e).inbox == Inbox(evs + InboxEventOf(e))
  {
    InboxPrefix(evs, InboxEventOf(e), |evs|);
    if InboxEventOf(e) == [] {
      assert evs + [] == evs;
    } else if e.Queue? {
      var before := Queues.InboxAfter(evs, |evs|);
      Queues.DropOverKeeps(Queues.InboxState(before.inbox + [e.message], before.removed));
    }
  }

  function InboxRun(es: seq<Effect>): Queues.InboxState<Message> {
    Queues.InboxAfter(InboxEvents(es), |InboxEvents(es)|)
  }

  lemma InboxIsRun(s: State, es: seq<Effect>)
    requires s.inbox == []
    ensures ApplyAll(s, es).inbox == InboxRun(es).inbox
  {
    forall t: State, e, evs | t.inbox == Inbox(evs)
      ensures Apply(t, e).inbox == Inbox(evs + InboxEventOf(e))
    {
      EffectInbox(t, evs, e);
    }
    Runs.Projects(Apply, (t: State) => t.inbox, InboxEventOf, Inbox, s, es);
  }

  /** The messages the app was given on request, in order. */
  function PulledBy(e: Effect): seq<Message> {
    if e.Tell? && e.frame.Pulled? then [e.frame.message] else []
  }

  function Pulls(es: seq<Effect>): seq<Message> {
    Runs.Collect(PulledBy, es)
  }

  function DeliveredBy(r: Queues.Removal<Message>): seq<Message> {
    if r.Delivered? then [r.frame] else []
  }

  function Delivered(q: Queues.InboxState<Message>): seq<Message> {
    Runs.Collect(DeliveredBy, q.removed)
  }

  lemma {:induction false} DroppingDeliversNone(q: Queues.InboxState<Message>)
    ensures Delivered(Queues.DropOver(q)) == Delivered(q)
    decreases |q.inbox|
  {
    if Queues.INBOX_LIMIT < |q.inbox| {
      Runs.CollectLast(DeliveredBy, q.removed, Queues.Dropped(q.inbox[0]));
      assert Delivered(q) + [] == Delivered(q);
      DroppingDeliversNone(Queues.InboxState(q.inbox[1..], q.removed + [Queues.Dropped(q.inbox[0])]));
    }
  }

  /** Queueing delivers nothing. */
  lemma {:induction false} QueueingDeliversNone(evs: seq<Queues.InboxEvent<Message>>, n: nat, m: nat)
    requires n <= m <= |evs| && forall i :: n <= i < m ==> evs[i].Queued?
    ensures Delivered(Queues.InboxAfter(evs, m)) == Delivered(Queues.InboxAfter(evs, n))
  {
    if n < m {
      QueueingDeliversNone(evs, n, m - 1);
      var before := Queues.InboxAfter(evs, m - 1);
      DroppingDeliversNone(Queues.InboxState(before.inbox + [evs[m - 1].frame], before.removed));
    }
  }

  lemma QuietBlock(front: seq<Effect>, now: seq<Effect>)
    requires PullFree(now)
    ensures Pulls(front + now) == Pulls(front) && Delivered(InboxRun(front + now)) == Delivered(InboxRun(front))
  {
    Runs.CollectAppend(PulledBy, front, now);
    Runs.CollectNone(PulledBy, now);
    assert Pulls(front) + [] == Pulls(front);
    Runs.CollectAppend(InboxEventOf, front, now);
    Runs.CollectAll(InboxEventOf, (e: Queues.InboxEvent<Message>) => e.Queued?, now);
    var a, b := InboxEvents(front), InboxEvents(now);
    QueueingDeliversNone(a + b, |a|, |a + b|);
    InboxPrefix(a, b, |a|);
  }

  lemma PullBlock(front: seq<Effect>)
    requires InboxRun(front).inbox != []
    ensures
      var m := InboxRun(front).inbox[0];
      var now := [Tell(Pulled(m)), Pull];
      Pulls(front + now) == Pulls(front) + [m] && Delivered(InboxRun(front + now)) == Delivered(InboxRun(front)) + [m]
  {
    var m := InboxRun(front).inbox[0];
    assert front + [Tell(Pulled(m)), Pull] == (front + [Tell(Pulled(m))]) + [Pull];
    QuietPull(front, m);
    Runs.CollectLast(PulledBy, front, Tell(Pulled(m)));
    Runs.CollectLast(PulledBy, front + [Tell(Pulled(m))], Pull);
    assert (Pulls(front) + [m]) + [] == Pulls(front) + [m];
    Runs.CollectLast(DeliveredBy, InboxRun(front).removed, Queues.Delivered(m));
  }

  lemma QuietPull(front: seq<Effect>, m: Message)
    ensures InboxRun((front + [Tell(Pulled(m))]) + [Pull]) == Queues.InboxStep(InboxRun(front), Queues.Pull)
  {
    var evs := InboxEvents(front);
    Runs.CollectLast(InboxEventOf, front, Tell(Pulled(m)));
    Runs.CollectLast(InboxEventOf, front + [Tell(Pulled(m))], Pull);
    assert evs + [] == evs;
    InboxPrefix(evs, [Queues.Pull], |evs|);
  }

  /** Nothing pulled, and the app given no message. */
  predicate PullFree(es: seq<Effect>) {
    forall i :: 0 <= i < |es| ==> !es[i].Pull? && PulledBy(es[i]) == []
  }

  lemma OnlySyncPulls(cfg: Config, s: State, e: Event)
    requires e != SyncNext
    ensures PullFree(Decide(cfg, s, e))
  {
    match e
    case TextCommand(f, now) => TextPullsNone(cfg, s, f, now);
    case AnonCommand(k, body, now) => AnonPullsNone(cfg, s, k, body, now);
    case Receive(p, salt) => ReceivePullsNone(cfg, s, p, salt);
    case _ =>
  }

  lemma TextPullsNone(cfg: Config, s: State, f: seq<byte>, now: real)
    ensures PullFree(OnText(cfg, s, f, now))
  {}

  lemma AnonPullsNone(cfg: Config, s: State, k: Key, body: seq<byte>, now: real)
    ensures PullFree(OnAnon(cfg, s, k, body, now))
  {}

  lemma ReceivePullsNone(cfg: Config, s: State, p: RxPacket, salt: byte)
    ensures PullFree(OnReceive(cfg, s, p, salt))
  {
    HandledPullsNone(cfg, Apply(s, Hear(KeyOf(p), p.time)), p, salt);
  }

  lemma HandledPullsNone(cfg: Config, s: State, p: RxPacket, salt: byte)
    ensures PullFree(Handled(cfg, s, p, salt))
  {
    match p.payload
    case Path(_, _, _, _) => PathPullsNone(cfg, s, p);
    case TextMessage(_, _, _, _) => TextHeardPullsNone(cfg, s, p, salt);
    case _ =>
  }

  lemma PathPullsNone(cfg: Config, s: State, p: RxPacket)
    requires p.payload.Path?
    ensures PullFree(OnPathHeard(cfg, s, p))
  {}

  lemma TextHeardPullsNone(cfg: Config, s: State, p: RxPacket, salt: byte)
    requires p.payload.TextMessage?
    ensures PullFree(OnTextHeard(cfg, s, p, salt))
  {}

  lemma PullsStep(cfg: Config, s: State, front: seq<Effect>, e: Event)
    requires s.inbox == [] && Pulls(front) == Delivered(InboxRun(front))
    ensures
      var now := Decide(cfg, ApplyAll(s, front), e);
      Pulls(front + now) == Delivered(InboxRun(front + now))
  {
    var t := ApplyAll(s, front);
    InboxIsRun(s, front);
    if e != SyncNext {
      OnlySyncPulls(cfg, t, e);
      QuietBlock(front, Decide(cfg, t, e));
    } else if t.inbox == [] {
      QuietBlock(front, Decide(cfg, t, e));
    } else {
      PullBlock(front);
    }
  }

  /** On every run, the app was given exactly the messages delivered from the front of the inbox, in order. */
  lemma PullsOnRuns(cfg: Config, s: State, events: seq<Event>, blocks: seq<seq<Effect>>, n: nat)
    requires s.inbox == [] && Execution(cfg, s, events, blocks) && n <= |events|
    ensures Pulls(Runs.Joined(blocks, n)) == Delivered(InboxRun(Runs.Joined(blocks, n)))
  {
    var agree := (es: seq<Effect>, k: nat) => Pulls(es) == Delivered(InboxRun(es));
    assert agree([], 0);
    forall i: nat | i < n ensures Runs.PassedOn(agree, blocks, i) {
      if agree(Runs.Joined(blocks, i), i) {
        PullsStep(cfg, s, Runs.Joined(blocks, i), events[i]);
      }
    }
    Runs.JoinedGrows(agree, blocks, n);
  }

  /**
   * On every run: the messages queued split, in order, into those that left and those
   * in the inbox, and none was dropped unless 256 newer ones had been queued.
   */
  lemma InboxOnRuns(cfg: Config, s: State, events: seq<Event>, blocks: seq<seq<Effect>>, n: nat)
    requires s.inbox == [] && Execution(cfg, s, events, blocks) && n <= |events|
    ensures
      var evs := InboxEvents(Runs.Joined(blocks, n));
      && StateAt(s, blocks, n).inbox == Queues.InboxAfter(evs, |evs|).inbox
      && Queues.InboxConserved(Queues.InboxAfter(evs, |evs|), Queues.QueuedFrames(evs, |evs|))
  {
    var es := Runs.Joined(blocks, n);
    InboxIsRun(s, es);
    Queues.InboxConserves(InboxEvents(es), |InboxEvents(es)|);
  }

  // ----- the transmit queue

  function SentBy(e: Effect): seq<TxPacket> {
    if e.Transmit? then [e.packet] else []
  }

  lemma TxEffect(s: State, e: Effect)
    ensures Queues.InOrder(TxOf(Apply(s, e))) == Queues.InOrder(TxOf(s)) + SentBy(e)
  {
    match e
    case Transmit(packet) => Queues.TxStepKeeps(TxOf(s), Queues.Enqueue(packet));
    case WorkerTakes =>
      if Queues.Enabled(TxOf(s), Queues.Take) {
        Queues.TxStepKeeps(TxOf(s), Queues.Take);
      }
    case WorkerFinishes =>
      if Queues.Enabled(TxOf(s), Queues.Finish) {
        Queues.TxStepKeeps(TxOf(s), Queues.Finish);
      }
    case _ =>
  }

  /** Whatever the node and its worker do: transmitted, in flight and queued are what was there and what was enqueued since. */
  lemma {:induction false} TxConserved(s: State, es: seq<Effect>)
    ensures Queues.InOrder(TxOf(ApplyAll(s, es))) == Queues.InOrder(TxOf(s)) + Runs.Collect(SentBy, es)
    decreases |es|
  {
    if es == [] {
      assert Queues.InOrder(TxOf(s)) + [] == Queues.InOrder(TxOf(s));
    } else {
      var front, last := es[..|es| - 1], es[|es| - 1];
      assert es == front + [last];
      TxConserved(s, front);
      Runs.FoldLast(Apply, s, front, last);
      Runs.CollectLast(SentBy, front, last);
      TxEffect(ApplyAll(s, front), last);
      ConcatAssoc(Queues.InOrder(TxOf(s)), Runs.Collect(SentBy, front), SentBy(last));
    }
  }

  /** On every run of the node that starts with nothing to send. */
  lemma TxOnRuns(cfg: Config, s: State, events: seq<Event>, blocks: seq<seq<Effect>>, n: nat)
    requires Queues.InOrder(TxOf(s)) == [] && Execution(cfg, s, events, blocks) && n <= |events|
    ensures Queues.InOrder(TxOf(StateAt(s, blocks, n))) == Runs.Collect(SentBy, Runs.Joined(blocks, n))
  {
    TxConserved(s, Runs.Joined(blocks, n));
  }
}
