/** The delivery confirmations a node still waits for: a queue of at most 32, oldest first. */
module AckLedger {
  import opened Prelude

  const MAX_PENDING := 32

  datatype PendingAck = PendingAck(ack: U32, sentAt: real)

  function Pushed(q: seq<PendingAck>, p: PendingAck): (r: seq<PendingAck>) {
    Trimmed(q + [p])
  }

  function Trimmed<T>(q: seq<T>): (r: seq<T>)
    ensures |r| <= MAX_PENDING
  {
    if MAX_PENDING < |q| then Trimmed(q[1..]) else q
  }

  /** Where the oldest entry with this hash is; |q| if there is none. */
  function Find(q: seq<PendingAck>, ack: U32): (i: nat)
    ensures i <= |q|
    ensures i < |q| ==> q[i].ack == ack
    ensures forall j :: 0 <= j < i ==> q[j].ack != ack
  {
    if q == [] || q[0].ack == ack then 0 else 1 + Find(q[1..], ack)
  }

  predicate Awaited(q: seq<PendingAck>, ack: U32) {
    Find(q, ack) < |q|
  }

  function Without<T>(q: seq<T>, i: nat): seq<T>
    requires i < |q|
  {
    q[..i] + q[i + 1..]
  }

  function Acked(q: seq<PendingAck>, ack: U32): seq<PendingAck> {
    if Awaited(q, ack) then Without(q, Find(q, ack)) else q
  }

  // ----- runs

  /** A direct text sent with a hash, or an ACK with that hash heard (plain, or inside a PATH return). */
  datatype Event = TextSent(ack: U32, at: real) | AckHeard(ack: U32)

  function Next(q: seq<PendingAck>, e: Event): seq<PendingAck> {
    match e
    case TextSent(ack, at) => Pushed(q, PendingAck(ack, at))
    case AckHeard(ack) => Acked(q, ack)
  }

  function Pending(events: seq<Event>, n: nat): seq<PendingAck>
    requires n <= |events|
  {
    if n == 0 then [] else Next(Pending(events, n - 1), events[n - 1])
  }

  /** Whether event n is an ACK that finds its text: the push of a confirmation. */
  predicate Confirms(events: seq<Event>, n: nat)
    requires n < |events|
  {
    events[n].AckHeard? && Awaited(Pending(events, n), events[n].ack)
  }

  // ----- conservation, hash by hash

  function Waiting(q: seq<PendingAck>, ack: U32): nat {
    if q == [] then 0 else (if q[0].ack == ack then 1 else 0) + Waiting(q[1..], ack)
  }

  function SentWith(events: seq<Event>, n: nat, ack: U32): nat
    requires n <= |events|
  {
    if n == 0 then 0
    else SentWith(events, n - 1, ack) + if events[n - 1].TextSent? && events[n - 1].ack == ack then 1 else 0
  }

  function ConfirmedWith(events: seq<Event>, n: nat, ack: U32): nat
    requires n <= |events|
  {
    if n == 0 then 0
    else ConfirmedWith(events, n - 1, ack) + if Confirms(events, n - 1) && events[n - 1].ack == ack then 1 else 0
  }

  /** Whether event n pushes the oldest entry out, and that entry has this hash. */
  predicate PushesOut(events: seq<Event>, n: nat, ack: U32)
    requires n < |events|
  {
    events[n].TextSent? && |Pending(events, n)| == 32 && Pending(events, n)[0].ack == ack
  }

  function ForgottenWith(events: seq<Event>, n: nat, ack: U32): nat
    requires n <= |events|
  {
    if n == 0 then 0
    else ForgottenWith(events, n - 1, ack) + if PushesOut(events, n - 1, ack) then 1 else 0
  }

  lemma {:induction false} WaitingAppend(a: seq<PendingAck>, b: seq<PendingAck>, ack: U32)
    ensures Waiting(a + b, ack) == Waiting(a, ack) + Waiting(b, ack)
  {
    if a == [] {
      assert a + b == b;
    } else {
      assert (a + b)[1..] == a[1..] + b;
      WaitingAppend(a[1..], b, ack);
    }
  }

  lemma WaitingPushed(q: seq<PendingAck>, p: PendingAck, ack: U32)
    requires |q| <= 32
    ensures Waiting(Pushed(q, p), ack) + (if |q| == 32 && q[0].ack == ack then 1 else 0)
         == Waiting(q, ack) + if p.ack == ack then 1 else 0
  {
    WaitingAppend(q, [p], ack);
    assert Waiting([p], ack) == if p.ack == ack then 1 else 0 by {
      assert [p][1..] == [];
    }
    if |q| == 32 {
      PushedWhenFull(q, p);
      WaitingAppend(q[1..], [p], ack);
    }
  }

  lemma WaitingAcked(q: seq<PendingAck>, heard: U32, ack: U32)
    ensures Waiting(Acked(q, heard), ack)
         == Waiting(q, ack) - if heard == ack && Awaited(q, heard) then 1 else 0
  {
    if Awaited(q, heard) {
      var i := Find(q, heard);
      assert q == q[..i] + ([q[i]] + q[i + 1..]);
      WaitingAppend(q[..i], [q[i]] + q[i + 1..], ack);
      WaitingAppend(q[..i], q[i + 1..], ack);
      assert ([q[i]] + q[i + 1..])[1..] == q[i + 1..];
    }
  }

  lemma EventBalanced(q: seq<PendingAck>, e: Event, ack: U32)
    requires |q| <= 32
    ensures Waiting(Next(q, e), ack)
          + (if e.TextSent? && |q| == 32 && q[0].ack == ack then 1 else 0)
          + (if e.AckHeard? && Awaited(q, e.ack) && e.ack == ack then 1 else 0)
         == Waiting(q, ack) + if e.TextSent? && e.ack == ack then 1 else 0
  {
    match e
    case TextSent(a, at) => WaitingPushed(q, PendingAck(a, at), ack);
    case AckHeard(a) => WaitingAcked(q, a, ack);
  }

  lemma {:induction false} PendingBounded(events: seq<Event>, n: nat)
    requires n <= |events|
    ensures |Pending(events, n)| <= 32
  {
    if n != 0 {
      PendingBounded(events, n - 1);
    }
  }

  /**
   * Every text sent with a hash is confirmed, or still waiting, or was pushed out:
   * confirmations with a hash never exceed the texts sent with it.
   */
  lemma {:induction false} AcksConserved(events: seq<Event>, n: nat, ack: U32)
    requires n <= |events|
    ensures SentWith(events, n, ack)
         == ConfirmedWith(events, n, ack) + Waiting(Pending(events, n), ack) + ForgottenWith(events, n, ack)
  {
    if n != 0 {
      AcksConserved(events, n - 1, ack);
      PendingBounded(events, n - 1);
      EventBalanced(Pending(events, n - 1), events[n - 1], ack);
    }
  }

  // ----- one event more

  lemma {:induction false} PendingPrefix(a: seq<Event>, b: seq<Event>, n: nat)
    requires n <= |a|
    ensures Pending(a + b, n) == Pending(a, n)
  {
    if n != 0 {
      PendingPrefix(a, b, n - 1);
    }
  }

  lemma {:induction false} ConfirmedPrefix(a: seq<Event>, b: seq<Event>, n: nat, ack: U32)
    requires n <= |a|
    ensures ConfirmedWith(a + b, n, ack) == ConfirmedWith(a, n, ack)
  {
    if n != 0 {
      ConfirmedPrefix(a, b, n - 1, ack);
      PendingPrefix(a, b, n - 1);
      assert Confirms(a + b, n - 1) == Confirms(a, n - 1);
    }
  }

  lemma ConfirmedSnoc(a: seq<Event>, e: Event, ack: U32)
    ensures ConfirmedWith(a + [e], |a| + 1, ack)
         == ConfirmedWith(a, |a|, ack) + if e.AckHeard? && e.ack == ack && Awaited(Pending(a, |a|), ack) then 1 else 0
  {
    ConfirmedPrefix(a, [e], |a|, ack);
    PendingPrefix(a, [e], |a|);
    assert (a + [e])[|a|] == e;
  }

  // ----- how long a text waits

  function TextsBetween(events: seq<Event>, lo: nat, hi: nat): nat
    requires lo <= hi <= |events|
    decreases hi
  {
    if lo == hi then 0
    else TextsBetween(events, lo, hi - 1) + if events[hi - 1].TextSent? then 1 else 0
  }

  /** p is in the queue with at most k entries behind it. */
  ghost predicate Within(q: seq<PendingAck>, p: PendingAck, k: int) {
    exists i :: 0 <= i < |q| && q[i] == p && |q| - 1 - i <= k
  }

  lemma JustSent(q: seq<PendingAck>, p: PendingAck)
    requires |q| <= 32
    ensures Within(Pushed(q, p), p, 0)
  {
    var r := Pushed(q, p);
    if |q| == 32 {
      PushedWhenFull(q, p);
    }
    assert r[|r| - 1] == p;
  }

  lemma TextKept(q: seq<PendingAck>, later: PendingAck, p: PendingAck, k: int)
    requires |q| <= 32 && k < 32 - 1 && Within(q, p, k)
    ensures Within(Pushed(q, later), p, k + 1)
  {
    var i :| 0 <= i < |q| && q[i] == p && |q| - 1 - i <= k;
    var r := Pushed(q, later);
    if |q| == 32 {
      PushedWhenFull(q, later);
      assert r[i - 1] == p;
    } else {
      assert r[i] == p;
    }
  }

  lemma OtherKept(q: seq<PendingAck>, heard: U32, p: PendingAck, k: int)
    requires p.ack != heard && Within(q, p, k)
    ensures Within(Acked(q, heard), p, k)
  {
    var i :| 0 <= i < |q| && q[i] == p && |q| - 1 - i <= k;
    if Awaited(q, heard) {
      OtherStays(q, Find(q, heard), p, i, k);
    }
  }

  lemma OtherStays(q: seq<PendingAck>, gone: nat, p: PendingAck, i: nat, k: int)
    requires gone < |q| && i < |q| && i != gone && q[i] == p && |q| - 1 - i <= k
    ensures Within(Without(q, gone), p, k)
  {
    assert Without(q, gone)[if gone < i then i - 1 else i] == p;
  }

  /**
   * A text whose hash has not come back is still waited for while fewer than 32
   * further direct texts have been sent.
   */
  lemma {:induction false} WaitsFor32Texts(events: seq<Event>, sent: nat, n: nat)
    requires sent < n <= |events| && events[sent].TextSent?
    requires forall m :: sent < m < n && events[m].AckHeard? ==> events[m].ack != events[sent].ack
    requires TextsBetween(events, sent + 1, n) < 32
    ensures Within(Pending(events, n), PendingAck(events[sent].ack, events[sent].at), TextsBetween(events, sent + 1, n))
    decreases n
  {
    PendingBounded(events, n - 1);
    var q := Pending(events, n - 1);
    var mine := PendingAck(events[sent].ack, events[sent].at);
    if n == sent + 1 {
      JustSent(q, mine);
    } else {
      WaitsFor32Texts(events, sent, n - 1);
      match events[n - 1] {
        case TextSent(a, at) => TextKept(q, PendingAck(a, at), mine, TextsBetween(events, sent + 1, n - 1));
        case AckHeard(a) => OtherKept(q, a, mine, TextsBetween(events, sent + 1, n - 1));
      }
    }
  }

  lemma PushedWhenFull(q: seq<PendingAck>, p: PendingAck)
    requires |q| == 32
    ensures Pushed(q, p) == q[1..] + [p]
  {
    var longer := q + [p];
    assert longer[1..] == q[1..] + [p];
    assert Trimmed(longer) == Trimmed(longer[1..]);
  }

  function EntryOf(e: Event): PendingAck
    requires e.TextSent?
  {
    PendingAck(e.ack, e.at)
  }

  /** Events from a text on, all of them texts. */
  ghost predicate TextsOnly(events: seq<Event>, sent: nat, n: nat)
    requires n <= |events|
  {
    forall i :: sent <= i < n ==> events[i].TextSent?
  }

  /** The entry at distance k from the back of the queue is that of the text k events ago. */
  ghost predicate InPlace(q: seq<PendingAck>, events: seq<Event>, n: nat, k: nat) {
    1 <= k <= n <= |events| && events[n - k].TextSent? && k <= |q| && q[|q| - k] == EntryOf(events[n - k])
  }

  /** The back of the queue holds the texts since, newest last, as far as 32 entries reach. */
  ghost predicate HoldsLast(q: seq<PendingAck>, events: seq<Event>, sent: nat, n: nat) {
    forall k: nat :: 1 <= k <= n - sent && k <= 32 ==> InPlace(q, events, n, k)
  }

  lemma LastGrows(q: seq<PendingAck>, events: seq<Event>, sent: nat, n: nat)
    requires sent <= n < |events| && |q| <= 32 && events[n].TextSent? && HoldsLast(q, events, sent, n)
    ensures HoldsLast(Pushed(q, EntryOf(events[n])), events, sent, n + 1)
  {
    var r := Pushed(q, EntryOf(events[n]));
    if |q| == 32 {
      PushedWhenFull(q, EntryOf(events[n]));
    }
    var next := n + 1;
    forall k: nat | 1 <= k <= next - sent && k <= 32 ensures InPlace(r, events, next, k) {
      if k != 1 {
        assert InPlace(q, events, n, k - 1);
      }
    }
  }

  lemma {:induction false} LastTexts(events: seq<Event>, sent: nat, n: nat)
    requires sent <= n <= |events| && TextsOnly(events, sent, n)
    ensures HoldsLast(Pending(events, n), events, sent, n)
    decreases n
  {
    if sent < n {
      LastTexts(events, sent, n - 1);
      PendingBounded(events, n - 1);
      LastGrows(Pending(events, n - 1), events, sent, n - 1);
    }
  }

  /**
   * The bound is exact, whatever came before the text: with no ACK heard since, its entry is in its place while
   * at most 31 further texts were sent, and from the 32nd on the queue holds the last 32 texts and nothing else.
   * So its hash is waited for exactly if one of the last 32 texts, itself included, has it.
   */
  lemma PushedOutBy32(events: seq<Event>, sent: nat, n: nat)
    requires sent < n <= |events| && TextsOnly(events, sent, n)
    ensures
      var q := Pending(events, n);
      if n - sent <= 32 then n - sent <= |q| && q[|q| - (n - sent)] == EntryOf(events[sent])
      else |q| == 32 && forall j :: 0 <= j < 32 ==> q[j] == EntryOf(events[n - 32 + j])
    ensures Awaited(Pending(events, n), events[sent].ack)
      <==> exists j :: sent <= j < n && n - 32 <= j && events[j].ack == events[sent].ack
  {
    var q := Pending(events, n);
    LastTexts(events, sent, n);
    PendingBounded(events, n);
    if n - sent <= 32 {
      assert InPlace(q, events, n, n - sent);
    } else {
      forall j | 0 <= j < 32
        ensures |q| == 32 && q[j] == EntryOf(events[n - 32 + j])
      {
        assert InPlace(q, events, n, 32);
        assert InPlace(q, events, n, 32 - j);
      }
      if Awaited(q, events[sent].ack) {
        assert events[n - 32 + Find(q, events[sent].ack)].ack == events[sent].ack;
      }
    }
    if j :| sent <= j < n && n - 32 <= j && events[j].ack == events[sent].ack {
      assert InPlace(q, events, n, n - j);
    }
  }

  // ----- the loops

  method Push(q: seq<PendingAck>, p: PendingAck) returns (r: seq<PendingAck>)
    ensures r == Pushed(q, p)
  {
    r := q + [p];
    while MAX_PENDING < |r|
      invariant Trimmed(r) == Pushed(q, p)
    {
      r := r[1..];
    }
  }

  method TakeFirst(q: seq<PendingAck>, ack: U32) returns (matched: bool, sentAt: real, r: seq<PendingAck>)
    ensures matched == Awaited(q, ack) && r == Acked(q, ack)
    ensures matched ==> sentAt == q[Find(q, ack)].sentAt
  {
    for i := 0 to |q|
      invariant forall j :: 0 <= j < i ==> q[j].ack != ack
    {
      if q[i].ack == ack {
        assert i == Find(q, ack);
        return true, q[i].sentAt, q[..i] + q[i + 1..];
      }
    }
    return false, 0.0, q;
  }
}
