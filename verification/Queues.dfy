/** The two queues of the node: frames the app has yet to pull, packets yet to be transmitted. */
module Queues {
  import opened Prelude

  const INBOX_LIMIT := 256

  // ----- the inbox

  /** A frame taken from the front: pulled by the app, or dropped for want of room. */
  datatype Removal<T> = Delivered(frame: T) | Dropped(frame: T)

  datatype InboxEvent<T> = Queued(frame: T) | Pull

  /** The inbox, and everything that ever left it. */
  datatype InboxState<T> = InboxState(inbox: seq<T>, removed: seq<Removal<T>>)

  /** Trims from the front down to the limit. */
  function DropOver<T>(s: InboxState<T>): (r: InboxState<T>)
    ensures |r.inbox| <= INBOX_LIMIT
    decreases |s.inbox|
  {
    if INBOX_LIMIT < |s.inbox| then DropOver(InboxState(s.inbox[1..], s.removed + [Dropped(s.inbox[0])])) else s
  }

  /** What is left of an inbox trimmed to the limit. */
  function Kept<T>(inbox: seq<T>): (r: seq<T>)
    ensures |r| <= INBOX_LIMIT
    decreases |inbox|
  {
    if INBOX_LIMIT < |inbox| then Kept(inbox[1..]) else inbox
  }

  lemma {:induction false} DropOverKeeps<T>(s: InboxState<T>)
    ensures DropOver(s).inbox == Kept(s.inbox)
    decreases |s.inbox|
  {
    if INBOX_LIMIT < |s.inbox| {
      DropOverKeeps(InboxState(s.inbox[1..], s.removed + [Dropped(s.inbox[0])]));
    }
  }

  function InboxStep<T>(s: InboxState<T>, e: InboxEvent<T>): InboxState<T> {
    match e
    case Queued(f) => DropOver(InboxState(s.inbox + [f], s.removed))
    case Pull =>
      if s.inbox == [] then s else InboxState(s.inbox[1..], s.removed + [Delivered(s.inbox[0])])
  }

  function InboxAfter<T>(events: seq<InboxEvent<T>>, n: nat): InboxState<T>
    requires n <= |events|
  {
    if n == 0 then InboxState([], []) else InboxStep(InboxAfter(events, n - 1), events[n - 1])
  }

  /** Every frame queued by the first n events, in order. */
  function QueuedFrames<T>(events: seq<InboxEvent<T>>, n: nat): seq<T>
    requires n <= |events|
  {
    if n == 0 then []
    else QueuedFrames(events, n - 1) + if events[n - 1].Queued? then [events[n - 1].frame] else []
  }

  function Frames<T>(removed: seq<Removal<T>>): (fs: seq<T>)
    ensures |fs| == |removed|
  {
    seq(|removed|, i requires 0 <= i < |removed| => removed[i].frame)
  }

  lemma FramesSnoc<T>(removed: seq<Removal<T>>, r: Removal<T>)
    ensures Frames(removed + [r]) == Frames(removed) + [r.frame]
  {}

  /** The frames queued are those removed followed by those waiting; a dropped one had 256 queued behind it. */
  ghost predicate InboxConserved<T>(s: InboxState<T>, queued: seq<T>) {
    && queued == Frames(s.removed) + s.inbox
    && |s.inbox| <= 256
    && forall j :: 0 <= j < |s.removed| && s.removed[j].Dropped? ==> j + 256 < |queued|
  }

  lemma QueueStep<T>(s: InboxState<T>, queued: seq<T>, f: T)
    requires InboxConserved(s, queued)
    ensures InboxConserved(InboxStep(s, Queued(f)), queued + [f])
  {
    var full := InboxState(s.inbox + [f], s.removed);
    ConcatAssoc(Frames(s.removed), s.inbox, [f]);
    if INBOX_LIMIT < |full.inbox| {
      var next := InboxState(full.inbox[1..], full.removed + [Dropped(full.inbox[0])]);
      FramesSnoc(s.removed, Dropped(full.inbox[0]));
      ConcatAssoc(Frames(s.removed), [full.inbox[0]], full.inbox[1..]);
      assert full.inbox == [full.inbox[0]] + full.inbox[1..];
      assert DropOver(full) == DropOver(next) == next;
    }
  }

  lemma PullStep<T>(s: InboxState<T>, queued: seq<T>)
    requires InboxConserved(s, queued)
    ensures InboxConserved(InboxStep(s, Pull), queued)
  {
    if s.inbox != [] {
      FramesSnoc(s.removed, Delivered(s.inbox[0]));
      ConcatAssoc(Frames(s.removed), [s.inbox[0]], s.inbox[1..]);
      assert s.inbox == [s.inbox[0]] + s.inbox[1..];
    }
  }

  /**
   * On every run the frames queued split, in order, into those delivered or dropped
   * and those waiting, at most 256; a frame is dropped only if 256 newer ones wait.
   */
  lemma {:induction false} InboxConserves<T>(events: seq<InboxEvent<T>>, n: nat)
    requires n <= |events|
    ensures InboxConserved(InboxAfter(events, n), QueuedFrames(events, n))
  {
    if n != 0 {
      InboxConserves(events, n - 1);
      var s, queued := InboxAfter(events, n - 1), QueuedFrames(events, n - 1);
      match events[n - 1]
      case Queued(f) => QueueStep(s, queued, f);
      case Pull =>
        PullStep(s, queued);
        assert queued + [] == queued;
    }
  }

  /** queueForApp's trimming loop. */
  method TrimFront<T>(inbox0: seq<T>) returns (inbox: seq<T>)
    ensures inbox == Kept(inbox0)
  {
    inbox := inbox0;
    while INBOX_LIMIT < |inbox|
      invariant Kept(inbox) == Kept(inbox0)
    {
      inbox := inbox[1..];
    }
  }

  // ----- transmission

  /** Any thread enqueues; the worker alone takes a packet and, later, finishes transmitting it. */
  datatype TxEvent<T> = Enqueue(packet: T) | Take | Finish

  datatype TxState<T> = TxState(queue: seq<T>, inFlight: Option<T>, transmitted: seq<T>)

  /** The worker takes nothing while it transmits, and waits on an empty queue. */
  predicate Enabled<T>(s: TxState<T>, e: TxEvent<T>) {
    match e
    case Enqueue(_) => true
    case Take => s.inFlight.None? && s.queue != []
    case Finish => s.inFlight.Some?
  }

  function TxStep<T>(s: TxState<T>, e: TxEvent<T>): TxState<T>
    requires Enabled(s, e)
  {
    match e
    case Enqueue(p) => s.(queue := s.queue + [p])
    case Take => s.(queue := s.queue[1..], inFlight := Some(s.queue[0]))
    case Finish => s.(inFlight := None, transmitted := s.transmitted + [s.inFlight.value])
  }

  predicate TxRun<T(==)>(s: TxState<T>, events: seq<TxEvent<T>>)
    decreases |events|
  {
    events == [] || (Enabled(s, events[0]) && TxRun(TxStep(s, events[0]), events[1..]))
  }

  function TxAfter<T(==)>(s: TxState<T>, events: seq<TxEvent<T>>): TxState<T>
    requires TxRun(s, events)
    decreases |events|
  {
    if events == [] then s else TxAfter(TxStep(s, events[0]), events[1..])
  }

  function Enqueued<T>(events: seq<TxEvent<T>>): seq<T>
    decreases |events|
  {
    if events == [] then []
    else (if events[0].Enqueue? then [events[0].packet] else []) + Enqueued(events[1..])
  }

  function InOrder<T>(s: TxState<T>): seq<T> {
    s.transmitted + ((if s.inFlight.Some? then [s.inFlight.value] else []) + s.queue)
  }

  lemma TxStepKeeps<T>(s: TxState<T>, e: TxEvent<T>)
    requires Enabled(s, e)
    ensures InOrder(TxStep(s, e)) == InOrder(s) + if e.Enqueue? then [e.packet] else []
  {
    match e
    case Enqueue(p) =>
      ConcatAssoc(if s.inFlight.Some? then [s.inFlight.value] else [], s.queue, [p]);
      ConcatAssoc(s.transmitted, (if s.inFlight.Some? then [s.inFlight.value] else []) + s.queue, [p]);
    case Take =>
      assert [] + s.queue == [s.queue[0]] + s.queue[1..];
      assert InOrder(s) + [] == InOrder(s);
    case Finish =>
      ConcatAssoc(s.transmitted, [s.inFlight.value], s.queue);
      assert [] + s.queue == s.queue;
      assert InOrder(s) + [] == InOrder(s);
  }

  /** For every interleaving of producers and worker, packets go out once each, in the order enqueued. */
  lemma {:induction false} TransmitsInOrder<T>(s: TxState<T>, events: seq<TxEvent<T>>)
    requires TxRun(s, events)
    ensures InOrder(TxAfter(s, events)) == InOrder(s) + Enqueued(events)
    decreases |events|
  {
    if events == [] {
      assert InOrder(s) + [] == InOrder(s);
    } else {
      TxStepKeeps(s, events[0]);
      TransmitsInOrder(TxStep(s, events[0]), events[1..]);
      ConcatAssoc(InOrder(s), if events[0].Enqueue? then [events[0].packet] else [], Enqueued(events[1..]));
    }
  }
}
