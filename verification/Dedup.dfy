/**
 * Recognising payloads heard again: a map from payload to the time it was last
 * marked, pruned when it has grown too large.
 */
module Dedup {
  import opened Prelude

  const WINDOW := 600.0
  const CAPACITY := 4096

  type Marks<K> = map<K, real>

  predicate Recent<K>(m: Marks<K>, k: K, now: real) {
    k in m && now - m[k] < WINDOW
  }

  function Pruned<K>(m: Marks<K>, now: real): Marks<K> {
    map k | k in m && !(now - m[k] > WINDOW) :: m[k]
  }

  /** seenBefore, when the payload was not heard recently. */
  function Accepted<K>(m: Marks<K>, k: K, now: real): Marks<K> {
    var m' := m[k := now];
    if CAPACITY < |m'| then Pruned(m', now) else m'
  }

  function AfterHearing<K>(m: Marks<K>, k: K, now: real): Marks<K> {
    if Recent(m, k, now) then m else Accepted(m, k, now)
  }

  // ----- runs

  /** A payload heard from the radio, or one of our own marked when sent. */
  datatype Event<K> = Heard(key: K, time: real) | Sent(key: K, time: real)

  predicate Ordered<K>(events: seq<Event<K>>) {
    forall i, j :: 0 <= i < j < |events| ==> events[i].time <= events[j].time
  }

  /** The map after the first n events. */
  function Marking<K>(events: seq<Event<K>>, n: nat): Marks<K>
    requires n <= |events|
  {
    if n == 0 then map[]
    else
      var m, e := Marking(events, n - 1), events[n - 1];
      if e.Sent? then m[e.key := e.time] else AfterHearing(m, e.key, e.time)
  }

  /** Whether event n is answered "seen before". */
  ghost predicate Duplicate<K>(events: seq<Event<K>>, n: nat)
    requires n < |events|
  {
    events[n].Heard? && Recent(Marking(events, n), events[n].key, events[n].time)
  }

  // ----- the reference: a map that is never pruned

  function Unpruned<K>(events: seq<Event<K>>, n: nat): Marks<K>
    requires n <= |events|
  {
    if n == 0 then map[]
    else
      var m, e := Unpruned(events, n - 1), events[n - 1];
      if e.Heard? && Recent(m, e.key, e.time) then m else m[e.key := e.time]
  }

  /** Both maps agree, except on marks too old to matter from now on. */
  ghost predicate AgreeFrom<K(!new)>(m: Marks<K>, u: Marks<K>, now: real) {
    && (forall k :: k in m ==> k in u && m[k] == u[k])
    && (forall k :: k in u && k !in m ==> now - u[k] > WINDOW)
  }

  lemma {:induction false} MapsAgree<K(!new)>(events: seq<Event<K>>, n: nat, now: real)
    requires n <= |events| && Ordered(events)
    requires forall i :: 0 <= i < n ==> events[i].time <= now
    ensures AgreeFrom(Marking(events, n), Unpruned(events, n), now)
  {
    if n != 0 {
      var e := events[n - 1];
      MapsAgree(events, n - 1, e.time);
      HearingAgrees(Marking(events, n - 1), Unpruned(events, n - 1), e, now);
    }
  }

  lemma HearingAgrees<K(!new)>(m: Marks<K>, u: Marks<K>, e: Event<K>, now: real)
    requires AgreeFrom(m, u, e.time) && e.time <= now
    ensures Recent(m, e.key, e.time) == Recent(u, e.key, e.time)
    ensures AgreeFrom(if e.Sent? then m[e.key := e.time] else AfterHearing(m, e.key, e.time),
                      if e.Heard? && Recent(u, e.key, e.time) then u else u[e.key := e.time], now)
  {}

  /** Pruning never changes an answer, on any run with nondecreasing time. */
  lemma PruningInvisible<K(!new)>(events: seq<Event<K>>, n: nat)
    requires n < |events| && Ordered(events)
    ensures Duplicate(events, n) <==>
      events[n].Heard? && Recent(Unpruned(events, n), events[n].key, events[n].time)
  {
    MapsAgree(events, n, events[n].time);
  }

  // ----- what the answers mean

  /** Event i marked payload k at time t: a sending, or an accepted reception. */
  ghost predicate MarkedAt<K>(events: seq<Event<K>>, i: nat, k: K, t: real)
    requires i < |events|
  {
    !Duplicate(events, i) && events[i].key == k && events[i].time == t
  }

  lemma UnprunedStep<K(!new)>(events: seq<Event<K>>, n: nat)
    requires n < |events| && Ordered(events)
    ensures
      var u, e := Unpruned(events, n), events[n];
      Unpruned(events, n + 1) == if Duplicate(events, n) then u else u[e.key := e.time]
  {
    PruningInvisible(events, n);
  }

  /** A mark is never older than an event that set it. */
  lemma {:induction false} MarkIsLatest<K(!new)>(events: seq<Event<K>>, n: nat, i: nat)
    requires i < n <= |events| && Ordered(events) && !Duplicate(events, i)
    ensures events[i].key in Unpruned(events, n) && events[i].time <= Unpruned(events, n)[events[i].key]
  {
    UnprunedStep(events, n - 1);
    if i < n - 1 {
      MarkIsLatest(events, n - 1, i);
    }
  }

  /** A mark was set by some event. */
  lemma {:induction false} MarkIsSet<K(!new)>(events: seq<Event<K>>, n: nat, k: K) returns (i: nat)
    requires n <= |events| && Ordered(events) && k in Unpruned(events, n)
    ensures i < n && MarkedAt(events, i, k, Unpruned(events, n)[k])
  {
    assert n != 0;
    UnprunedStep(events, n - 1);
    if !Duplicate(events, n - 1) && events[n - 1].key == k {
      i := n - 1;
    } else {
      i := MarkIsSet(events, n - 1, k);
    }
  }

  /**
   * A reception is called a duplicate if and only if the same payload was sent, or
   * accepted, less than 600 seconds before.
   */
  lemma DuplicateMeaning<K(!new)>(events: seq<Event<K>>, n: nat)
    requires n < |events| && Ordered(events) && events[n].Heard?
    ensures Duplicate(events, n) <==>
      exists i :: 0 <= i < n && !Duplicate(events, i) && events[i].key == events[n].key
        && events[n].time - events[i].time < 600.0
  {
    PruningInvisible(events, n);
    var e, u := events[n], Unpruned(events, n);
    if Duplicate(events, n) {
      var i := MarkIsSet(events, n, e.key);
      assert !Duplicate(events, i) && events[i].key == e.key;
    }
    if i: nat :| i < n && !Duplicate(events, i) && events[i].key == e.key && e.time - events[i].time < 600.0 {
      MarkIsLatest(events, n, i);
    }
  }

  /** Two accepted receptions of one payload are at least 600 seconds apart. */
  lemma AcceptedAreApart<K(!new)>(events: seq<Event<K>>, i: nat, j: nat)
    requires i < j < |events| && Ordered(events)
    requires events[i].Heard? && events[j].Heard? && events[i].key == events[j].key
    requires !Duplicate(events, i) && !Duplicate(events, j)
    ensures 600.0 <= events[j].time - events[i].time
  {
    DuplicateMeaning(events, j);
  }

  // ----- the pruning loop

  method Prune<K(==)>(m: Marks<K>, now: real) returns (r: Marks<K>)
    ensures r == Pruned(m, now)
  {
    r := m;
    var todo := m.Keys;
    while todo != {}
      invariant todo <= m.Keys
      invariant forall k :: k in r <==> k in m && (k in todo || !(now - m[k] > WINDOW))
      invariant forall k :: k in r ==> r[k] == m[k]
      decreases todo
    {
      var k :| k in todo;
      if now - m[k] > WINDOW {
        r := r - {k};
      }
      todo := todo - {k};
    }
  }
}
