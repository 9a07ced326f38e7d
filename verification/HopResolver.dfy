/** Which known repeater or room stands behind every hop of a path. */
module HopResolver {
  import opened Prelude
  import opened PathHelper

  datatype LatLng = LatLng(latitude: real, longitude: real)

  datatype Contact = Contact(
    publicKey: seq<byte>, kind: int, lastSeen: int, latitude: Option<real>, longitude: Option<real>)
  {
    predicate HasLocation() {
      var lat := if latitude.Some? then latitude.value else 0.0;
      var lon := if longitude.Some? then longitude.value else 0.0;
      && (lat > 0.000001 || lat < -0.000001 || lon > 0.000001 || lon < -0.000001)
      && -90.0 <= lat <= 90.0 && -180.0 <= lon <= 180.0
    }

    function Position(): Option<LatLng> {
      if !HasLocation() || latitude.None? || longitude.None? then None
      else Some(LatLng(latitude.value, longitude.value))
    }
  }

  const ADV_TYPE_REPEATER := 2
  const ADV_TYPE_ROOM := 3

  /** Distances come from a geometry library; any function will do. */
  type Distance = (LatLng, LatLng) -> real

  // ----- candidates

  predicate Eligible(c: Contact, width: int) {
    width <= |c.publicKey| && (c.kind == ADV_TYPE_REPEATER || c.kind == ADV_TYPE_ROOM)
  }

  predicate InBucket(c: Contact, width: nat, p: string) {
    Eligible(c, width) && FormatHopHex(c.publicKey[..width]) == p
  }

  /** The contacts whose prefix has the name p, in list order. */
  function Bucket(contacts: seq<Contact>, width: nat, p: string): (b: seq<Contact>)
    ensures forall c :: c in b ==> c in contacts && InBucket(c, width, p)
  {
    if contacts == [] then []
    else (if InBucket(contacts[0], width, p) then [contacts[0]] else []) + Bucket(contacts[1..], width, p)
  }

  lemma {:induction false} BucketSnoc(contacts: seq<Contact>, c: Contact, width: nat, p: string)
    ensures Bucket(contacts + [c], width, p)
         == Bucket(contacts, width, p) + (if InBucket(c, width, p) then [c] else [])
  {
    if contacts == [] {
      assert contacts + [c] == [c];
      assert [c][1..] == [];
    } else {
      SnocTail(contacts, c);
      BucketSnoc(contacts[1..], c, width, p);
      ConcatAssoc(if InBucket(contacts[0], width, p) then [contacts[0]] else [], Bucket(contacts[1..], width, p),
                  if InBucket(c, width, p) then [c] else []);
    }
  }

  lemma SnocTail<T>(s: seq<T>, t: T)
    requires s != []
    ensures (s + [t])[0] == s[0] && (s + [t])[1..] == s[1..] + [t]
  {}

  /**
   * Every contact is in the bucket as often as in the list, if it is a repeater (2) or a room (3) whose key is
   * long enough and begins with bytes of this name; else not at all.
   */
  lemma {:induction false} BucketSpelled(contacts: seq<Contact>, width: nat, p: string, c: Contact)
    ensures multiset(Bucket(contacts, width, p))[c]
         == if width <= |c.publicKey| && (c.kind == 2 || c.kind == 3) && FormatHopHex(c.publicKey[..width]) == p
            then multiset(contacts)[c] else 0
  {
    if contacts != [] {
      BucketSpelled(contacts[1..], width, p, c);
      CountFirst(contacts, c);
      var head := if InBucket(contacts[0], width, p) then [contacts[0]] else [];
      assert multiset(Bucket(contacts, width, p)) == multiset(head) + multiset(Bucket(contacts[1..], width, p));
    }
  }

  lemma CountFirst<T>(s: seq<T>, t: T)
    requires s != []
    ensures multiset(s)[t] == (if s[0] == t then 1 else 0) + multiset(s[1..])[t]
  {
    assert s == [s[0]] + s[1..];
  }

  type Pool = map<string, seq<Contact>>

  function At(pool: Pool, p: string): seq<Contact> {
    if p in pool then pool[p] else []
  }

  predicate Descending(cs: seq<Contact>) {
    forall i, j :: 0 <= i < j < |cs| ==> cs[j].lastSeen <= cs[i].lastSeen
  }

  /** The pool holds every bucket, most recently seen first; ties may come in any order. */
  ghost predicate Arranged(contacts: seq<Contact>, width: nat, pool: Pool) {
    forall p :: multiset(At(pool, p)) == multiset(Bucket(contacts, width, p)) && Descending(At(pool, p))
  }

  // ----- the choice at one hop

  /** The first nearest one among the located candidates below n. */
  function Nearest(cs: seq<Contact>, from: LatLng, dist: Distance, n: nat): (r: Option<nat>)
    requires n <= |cs|
    ensures r.Some? ==> r.value < n && cs[r.value].Position().Some?
    ensures r.None? ==> forall j :: 0 <= j < n ==> cs[j].Position().None?
    ensures r.Some? ==> forall j :: 0 <= j < n && cs[j].Position().Some? ==>
      var (best, other) := (dist(from, cs[r.value].Position().value), dist(from, cs[j].Position().value));
      best <= other && (j < r.value ==> best < other)
  {
    if n == 0 then None
    else
      var r := Nearest(cs, from, dist, n - 1);
      var here := cs[n - 1].Position();
      if here.None? then r
      else if r.None? || dist(from, here.value) < dist(from, cs[r.value].Position().value) then Some(n - 1)
      else r
  }

  function Pick(cs: seq<Contact>, prev: Option<LatLng>, dist: Distance): (b: nat)
    requires cs != []
    ensures b < |cs|
  {
    if prev.None? || |cs| == 1 then 0
    else
      match Nearest(cs, prev.value, dist, |cs|)
      case None => 0
      case Some(b) => b
  }

  /** Nearer, or as near and seen no less recently. */
  predicate Nearer(a: Contact, b: Contact, from: LatLng, dist: Distance)
    requires a.Position().Some? && b.Position().Some?
  {
    var (da, db) := (dist(from, a.Position().value), dist(from, b.Position().value));
    da < db || (da == db && b.lastSeen <= a.lastSeen)
  }

  /**
   * With a previous position and a located candidate, the choice is a nearest located candidate, of equally
   * near ones a most recently seen; otherwise it is a most recently seen one.
   */
  predicate BestChoice(pick: Contact, cs: seq<Contact>, prev: Option<LatLng>, dist: Distance) {
    && pick in cs
    && if prev.Some? && exists c :: c in cs && c.Position().Some?
       then
         && pick.Position().Some?
         && forall c :: c in cs && c.Position().Some? ==> Nearer(pick, c, prev.value, dist)
       else
         forall c :: c in cs ==> c.lastSeen <= pick.lastSeen
  }

  lemma PickIsBest(cs: seq<Contact>, prev: Option<LatLng>, dist: Distance)
    requires cs != [] && Descending(cs)
    ensures BestChoice(cs[Pick(cs, prev, dist)], cs, prev, dist)
  {}

  // ----- the run over the hops

  datatype Progress = Progress(resolved: seq<Option<Contact>>, pool: Pool, prev: Option<LatLng>)

  function Without<T>(s: seq<T>, i: nat): seq<T>
    requires i < |s|
  {
    s[..i] + s[i + 1..]
  }

  function Step(hops: seq<Hop>, pr: Progress, i: nat, dist: Distance): (r: Progress)
    requires i < |hops| == |pr.resolved|
    ensures |r.resolved| == |hops|
  {
    var p := FormatHopHex(hops[i]);
    var cs := At(pr.pool, p);
    if cs == [] then pr
    else
      var b := Pick(cs, pr.prev, dist);
      var here := cs[b].Position();
      Progress(pr.resolved[i := Some(cs[b])], pr.pool[p := Without(cs, b)], if here.Some? then here else pr.prev)
  }

  predicate Indexes(order: seq<nat>, n: nat) {
    forall k :: 0 <= k < |order| ==> order[k] < n
  }

  predicate Distinct(order: seq<nat>) {
    forall j, k :: 0 <= j < k < |order| ==> order[j] != order[k]
  }

  function Run(hops: seq<Hop>, pr: Progress, order: seq<nat>, dist: Distance): (r: Progress)
    requires |pr.resolved| == |hops| && Indexes(order, |hops|)
    ensures |r.resolved| == |hops|
    decreases |order|
  {
    if order == [] then pr else Run(hops, Step(hops, pr, order[0], dist), order[1..], dist)
  }

  function Order(n: nat, fromEnd: bool): (order: seq<nat>)
    ensures |order| == n && Indexes(order, n)
    ensures Distinct(order)
  {
    seq(n, i requires 0 <= i < n => if fromEnd then n - 1 - i else i)
  }

  lemma OrderCovers(n: nat, fromEnd: bool, i: nat)
    requires i < n
    ensures i in Order(n, fromEnd)
  {
    assert Order(n, fromEnd)[if fromEnd then n - 1 - i else i] == i;
  }

  function Fresh(n: nat, pool: Pool, endpoint: Option<LatLng>): Progress {
    Progress(seq(n, _ => None), pool, endpoint)
  }

  // ----- conservation

  /** The contacts resolved at hops named p, among the first n hops. */
  function Taken(hops: seq<Hop>, resolved: seq<Option<Contact>>, p: string, n: nat): multiset<Contact>
    requires n <= |hops| == |resolved|
  {
    if n == 0 then multiset{}
    else
      Taken(hops, resolved, p, n - 1) + Share(hops[n - 1], resolved[n - 1], p)
  }

  function Share(hop: Hop, r: Option<Contact>, p: string): multiset<Contact> {
    if r.Some? && FormatHopHex(hop) == p then multiset{r.value} else multiset{}
  }

  /** The hops named p, among the first n. */
  function HopCount(hops: seq<Hop>, p: string, n: nat): (k: nat)
    requires n <= |hops|
  {
    if n == 0 then 0 else HopCount(hops, p, n - 1) + if FormatHopHex(hops[n - 1]) == p then 1 else 0
  }

  lemma {:induction false} TakenSame(hops: seq<Hop>, a: seq<Option<Contact>>, b: seq<Option<Contact>>, p: string, n: nat)
    requires n <= |hops| == |a| == |b| && forall j :: 0 <= j < n ==> a[j] == b[j]
    ensures Taken(hops, a, p, n) == Taken(hops, b, p, n)
  {
    if n != 0 {
      TakenSame(hops, a, b, p, n - 1);
    }
  }

  /** b is a with hop i, open in a, resolved. */
  lemma {:induction false} TakenUpdate(hops: seq<Hop>, a: seq<Option<Contact>>, b: seq<Option<Contact>>, p: string, i: nat, n: nat)
    requires i < n <= |hops| == |a| == |b| && a[i] == None
    requires forall j :: 0 <= j < n && j != i ==> a[j] == b[j]
    ensures Taken(hops, b, p, n) == Taken(hops, a, p, n) + Share(hops[i], b[i], p)
  {
    if i == n - 1 {
      UpdateLast(hops, a, b, p, n);
    } else {
      TakenUpdate(hops, a, b, p, i, n - 1);
      UpdateCarried(hops, a, b, p, n, Share(hops[i], b[i], p));
    }
  }

  lemma UpdateLast(hops: seq<Hop>, a: seq<Option<Contact>>, b: seq<Option<Contact>>, p: string, n: nat)
    requires 0 < n <= |hops| == |a| == |b| && a[n - 1] == None
    requires forall j :: 0 <= j < n - 1 ==> a[j] == b[j]
    ensures Taken(hops, b, p, n) == Taken(hops, a, p, n) + Share(hops[n - 1], b[n - 1], p)
  {
    TakenSame(hops, a, b, p, n - 1);
    NothingAdded(Taken(hops, a, p, n - 1));
  }

  lemma UpdateCarried(hops: seq<Hop>, a: seq<Option<Contact>>, b: seq<Option<Contact>>, p: string, n: nat, share: multiset<Contact>)
    requires 0 < n <= |hops| == |a| == |b| && a[n - 1] == b[n - 1]
    requires Taken(hops, b, p, n - 1) == Taken(hops, a, p, n - 1) + share
    ensures Taken(hops, b, p, n) == Taken(hops, a, p, n) + share
  {
    var before, after, last := Taken(hops, a, p, n - 1), Taken(hops, b, p, n - 1), Share(hops[n - 1], a[n - 1], p);
    TakenNext(hops, a, p, n, before, last);
    TakenNext(hops, b, p, n, after, last);
    AddedBefore(before, share, last, after);
  }

  lemma TakenNext(hops: seq<Hop>, r: seq<Option<Contact>>, p: string, n: nat, before: multiset<Contact>, share: multiset<Contact>)
    requires 0 < n <= |hops| == |r| && before == Taken(hops, r, p, n - 1) && share == Share(hops[n - 1], r[n - 1], p)
    ensures Taken(hops, r, p, n) == before + share
    ensures r[n - 1] == None ==> share == multiset{}
  {}

  lemma NothingAdded<T>(a: multiset<T>)
    ensures a + multiset{} == a
  {}

  lemma AddedBefore<T>(before: multiset<T>, share: multiset<T>, last: multiset<T>, after: multiset<T>)
    requires after == before + share
    ensures after + last == (before + last) + share
  {
    SwapAdded(before, share, last);
  }

  lemma SwapAdded<T>(a: multiset<T>, b: multiset<T>, c: multiset<T>)
    ensures (a + b) + c == (a + c) + b && (a + b) + c == a + (b + c)
  {}

  lemma WithoutLessOne<T>(s: seq<T>, i: nat)
    requires i < |s|
    ensures multiset{s[i]} + multiset(Without(s, i)) == multiset(s)
  {
    assert s == s[..i] + [s[i]] + s[i + 1..];
  }

  /** Nothing got lost or doubled, hops still to come are open, and a passed hop left open had no candidate left. */
  ghost predicate Balanced(hops: seq<Hop>, pool0: Pool, pr: Progress, ahead: seq<nat>)
    requires |pr.resolved| == |hops|
  {
    && (forall p :: Taken(hops, pr.resolved, p, |hops|) + multiset(At(pr.pool, p)) == multiset(At(pool0, p)))
    && (forall k :: 0 <= k < |ahead| && ahead[k] < |hops| ==> pr.resolved[ahead[k]] == None)
    && (forall i :: 0 <= i < |hops| && i !in ahead && pr.resolved[i] == None ==> At(pr.pool, FormatHopHex(hops[i])) == [])
  }

  lemma StepTaken(hops: seq<Hop>, pr: Progress, i: nat, dist: Distance, p: string)
    requires i < |hops| == |pr.resolved| && pr.resolved[i] == None
    ensures
      var next := Step(hops, pr, i, dist);
      Taken(hops, next.resolved, p, |hops|) + multiset(At(next.pool, p))
      == Taken(hops, pr.resolved, p, |hops|) + multiset(At(pr.pool, p))
  {
    var q := FormatHopHex(hops[i]);
    var cs := At(pr.pool, q);
    if cs != [] {
      var b := Pick(cs, pr.prev, dist);
      var taken, share := Taken(hops, pr.resolved, p, |hops|), Share(hops[i], Some(cs[b]), p);
      TakenUpdate(hops, pr.resolved, pr.resolved[i := Some(cs[b])], p, i, |hops|);
      WithoutLessOne(cs, b);
      if p == q {
        SwapAdded(taken, share, multiset(Without(cs, b)));
      } else {
        assert taken + multiset{} == taken;
      }
    }
  }

  /** A hop passed and left open had no candidate, and it never gets one. */
  lemma StepExhausted(hops: seq<Hop>, pr: Progress, ahead: seq<nat>, dist: Distance, j: nat)
    requires |pr.resolved| == |hops| && ahead != [] && ahead[0] < |hops| && j < |hops| && j !in ahead[1..]
    requires j !in ahead && pr.resolved[j] == None ==> At(pr.pool, FormatHopHex(hops[j])) == []
    ensures
      var next := Step(hops, pr, ahead[0], dist);
      next.resolved[j] == None ==> At(next.pool, FormatHopHex(hops[j])) == []
  {
    assert ahead == [ahead[0]] + ahead[1..];
  }

  lemma StepBalanced(hops: seq<Hop>, pool0: Pool, pr: Progress, ahead: seq<nat>, dist: Distance)
    requires |pr.resolved| == |hops| && ahead != [] && Indexes(ahead, |hops|)
    requires Distinct(ahead)
    requires Balanced(hops, pool0, pr, ahead)
    ensures Balanced(hops, pool0, Step(hops, pr, ahead[0], dist), ahead[1..])
  {
    var i := ahead[0];
    var next := Step(hops, pr, i, dist);
    forall p
      ensures Taken(hops, next.resolved, p, |hops|) + multiset(At(next.pool, p)) == multiset(At(pool0, p))
    {
      StepTaken(hops, pr, i, dist, p);
    }
    forall j | 0 <= j < |hops| && j !in ahead[1..] && next.resolved[j] == None
      ensures At(next.pool, FormatHopHex(hops[j])) == []
    {
      StepExhausted(hops, pr, ahead, dist, j);
    }
  }

  lemma {:induction false} RunBalanced(hops: seq<Hop>, pool0: Pool, pr: Progress, now: seq<nat>, later: seq<nat>, dist: Distance)
    requires |pr.resolved| == |hops| && Indexes(now, |hops|) && Indexes(later, |hops|)
    requires Distinct(now + later) && Balanced(hops, pool0, pr, now + later)
    ensures Balanced(hops, pool0, Run(hops, pr, now, dist), later)
    decreases |now|
  {
    if now == [] {
      assert now + later == later;
    } else {
      FirstOfBoth(now, later, now + later);
      StepBalanced(hops, pool0, pr, now + later, dist);
      RunBalanced(hops, pool0, Step(hops, pr, now[0], dist), now[1..], later, dist);
    }
  }

  lemma FirstOfBoth(now: seq<nat>, later: seq<nat>, both: seq<nat>)
    requires now != [] && both == now + later
    ensures both != [] && both[0] == now[0] && both[1..] == now[1..] + later
    ensures forall k :: 0 <= k < |both| - 1 ==> both[1..][k] == both[k + 1]
  {}

  /** The start of a walk is balanced: nothing is taken and every hop is still ahead. */
  lemma FreshBalanced(hops: seq<Hop>, pool: Pool, endpoint: Option<LatLng>, fromEnd: bool)
    ensures Balanced(hops, pool, Fresh(|hops|, pool, endpoint), Order(|hops|, fromEnd))
  {
    var start := Fresh(|hops|, pool, endpoint);
    forall p
      ensures Taken(hops, start.resolved, p, |hops|) + multiset(At(pool, p)) == multiset(At(pool, p))
    {
      TakenNothing(hops, p, |hops|);
    }
    forall i: nat | i < |hops|
      ensures i in Order(|hops|, fromEnd)
    {
      OrderCovers(|hops|, fromEnd, i);
    }
  }

  lemma {:induction false} TakenNothing(hops: seq<Hop>, p: string, n: nat)
    requires n <= |hops|
    ensures Taken(hops, seq(|hops|, _ => None), p, n) == multiset{}
  {
    if n != 0 {
      TakenNothing(hops, p, n - 1);
    }
  }

  /** All hops named p are resolved as soon as one candidate is left over. */
  lemma {:induction false} TakenCount(hops: seq<Hop>, resolved: seq<Option<Contact>>, p: string, n: nat)
    requires n <= |hops| == |resolved|
    ensures |Taken(hops, resolved, p, n)| <= HopCount(hops, p, n)
    ensures (forall i :: 0 <= i < n && FormatHopHex(hops[i]) == p ==> resolved[i].Some?) ==>
      |Taken(hops, resolved, p, n)| == HopCount(hops, p, n)
  {
    if n != 0 {
      TakenCount(hops, resolved, p, n - 1);
    }
  }

  lemma {:induction false} TakenHolds(hops: seq<Hop>, resolved: seq<Option<Contact>>, i: nat, n: nat)
    requires i < n <= |hops| == |resolved| && resolved[i].Some?
    ensures resolved[i].value in Taken(hops, resolved, FormatHopHex(hops[i]), n)
  {
    var p := FormatHopHex(hops[i]);
    if i < n - 1 {
      TakenHolds(hops, resolved, i, n - 1);
    } else {
      assert Share(hops[i], resolved[i], p) == multiset{resolved[i].value};
    }
    InEitherSum(Taken(hops, resolved, p, n - 1), Share(hops[n - 1], resolved[n - 1], p), resolved[i].value);
  }

  lemma InEitherSum<T>(a: multiset<T>, b: multiset<T>, t: T)
    requires t in a || t in b
    ensures t in a + b
  {}

  // ----- what resolving promises

  /** The contact stands in the list, is a repeater or room, and its key starts with the hop. */
  predicate Fitting(c: Contact, hop: Hop, contacts: seq<Contact>) {
    && c in contacts && (c.kind == ADV_TYPE_REPEATER || c.kind == ADV_TYPE_ROOM)
    && hop <= c.publicKey
  }

  lemma FittingFromBucket(c: Contact, hop: Hop, contacts: seq<Contact>, width: nat)
    requires c in Bucket(contacts, width, FormatHopHex(hop))
    ensures Fitting(c, hop, contacts)
  {
    FormatHopHexInjective(c.publicKey[..width], hop);
  }

  function ResolvedRun(path: seq<byte>, width: nat, pool: Pool, endpoint: Option<LatLng>, fromEnd: bool, dist: Distance): Progress
    requires 1 <= width
  {
    var hops := Split(path, width);
    Run(hops, Fresh(|hops|, pool, endpoint), Order(|hops|, fromEnd), dist)
  }

  /**
   * For every hop name: the contacts taken are contacts of that name, none more often
   * than the list has it, and their number is the smaller of the number of hops and
   * the number of candidates. Every resolved contact fits its hop.
   */
  lemma ResolvingConserves(contacts: seq<Contact>, path: seq<byte>, width: nat, pool: Pool,
                           endpoint: Option<LatLng>, fromEnd: bool, dist: Distance)
    requires 1 <= width && Arranged(contacts, width, pool)
    ensures
      var hops := Split(path, width);
      var resolved := ResolvedRun(path, width, pool, endpoint, fromEnd, dist).resolved;
      && |resolved| == |hops|
      && (forall p ::
        var bucket := Bucket(contacts, width, p);
        && Taken(hops, resolved, p, |hops|) <= multiset(bucket)
        && |Taken(hops, resolved, p, |hops|)| == Min(HopCount(hops, p, |hops|), |bucket|))
      && (forall i :: 0 <= i < |hops| && resolved[i].Some? ==> Fitting(resolved[i].value, hops[i], contacts))
  {
    var hops := Split(path, width);
    var start := Fresh(|hops|, pool, endpoint);
    var order := Order(|hops|, fromEnd);
    FreshBalanced(hops, pool, endpoint, fromEnd);
    assert order + [] == order;
    RunBalanced(hops, pool, start, order, [], dist);
    var end := Run(hops, start, order, dist);
    forall p
      ensures
        var bucket := Bucket(contacts, width, p);
        && Taken(hops, end.resolved, p, |hops|) <= multiset(bucket)
        && |Taken(hops, end.resolved, p, |hops|)| == Min(HopCount(hops, p, |hops|), |bucket|)
    {
      BucketExhausted(hops, contacts, width, pool, end, p);
    }
    forall i | 0 <= i < |hops| && end.resolved[i].Some?
      ensures Fitting(end.resolved[i].value, hops[i], contacts)
    {
      var p := FormatHopHex(hops[i]);
      TakenHolds(hops, end.resolved, i, |hops|);
      assert end.resolved[i].value in multiset(Bucket(contacts, width, p));
      FittingFromBucket(end.resolved[i].value, hops[i], contacts, width);
    }
  }

  lemma BucketExhausted(hops: seq<Hop>, contacts: seq<Contact>, width: nat, pool: Pool, end: Progress, p: string)
    requires |end.resolved| == |hops| && Arranged(contacts, width, pool) && Balanced(hops, pool, end, [])
    ensures
      var bucket := Bucket(contacts, width, p);
      && Taken(hops, end.resolved, p, |hops|) <= multiset(bucket)
      && |Taken(hops, end.resolved, p, |hops|)| == Min(HopCount(hops, p, |hops|), |bucket|)
  {
    var taken := Taken(hops, end.resolved, p, |hops|);
    var left := At(end.pool, p);
    assert taken + multiset(left) == multiset(At(pool, p)) == multiset(Bucket(contacts, width, p));
    assert |taken| + |left| == |multiset(Bucket(contacts, width, p))|;
    TakenCount(hops, end.resolved, p, |hops|);
  }

  // ----- every single choice

  lemma {:induction false} RunAppend(hops: seq<Hop>, pr: Progress, a: seq<nat>, b: seq<nat>, dist: Distance)
    requires |pr.resolved| == |hops| && Indexes(a, |hops|) && Indexes(b, |hops|)
    ensures Run(hops, pr, a + b, dist) == Run(hops, Run(hops, pr, a, dist), b, dist)
    decreases |a|
  {
    if a == [] {
      assert a + b == b;
    } else {
      assert (a + b)[1..] == a[1..] + b;
      RunAppend(hops, Step(hops, pr, a[0], dist), a[1..], b, dist);
    }
  }

  lemma {:induction false} RunKeeps(hops: seq<Hop>, pr: Progress, ahead: seq<nat>, dist: Distance, i: nat)
    requires |pr.resolved| == |hops| && Indexes(ahead, |hops|) && i < |hops| && i !in ahead
    ensures Run(hops, pr, ahead, dist).resolved[i] == pr.resolved[i]
    decreases |ahead|
  {
    if ahead != [] {
      RunKeeps(hops, Step(hops, pr, ahead[0], dist), ahead[1..], dist, i);
    }
  }

  ghost predicate AllDescending(pool: Pool) {
    forall p :: Descending(At(pool, p))
  }

  lemma WithoutDescends(cs: seq<Contact>, b: nat)
    requires b < |cs| && Descending(cs)
    ensures Descending(Without(cs, b))
  {}

  lemma StepDescending(hops: seq<Hop>, pr: Progress, i: nat, dist: Distance)
    requires i < |hops| == |pr.resolved| && AllDescending(pr.pool)
    ensures AllDescending(Step(hops, pr, i, dist).pool)
  {
    var cs := At(pr.pool, FormatHopHex(hops[i]));
    if cs != [] {
      WithoutDescends(cs, Pick(cs, pr.prev, dist));
    }
    forall q
      ensures Descending(At(Step(hops, pr, i, dist).pool, q))
    {
      assert Descending(At(pr.pool, q));
    }
  }

  lemma {:induction false} RunDescending(hops: seq<Hop>, pr: Progress, ahead: seq<nat>, dist: Distance)
    requires |pr.resolved| == |hops| && Indexes(ahead, |hops|) && AllDescending(pr.pool)
    ensures AllDescending(Run(hops, pr, ahead, dist).pool)
    decreases |ahead|
  {
    if ahead != [] {
      StepDescending(hops, pr, ahead[0], dist);
      RunDescending(hops, Step(hops, pr, ahead[0], dist), ahead[1..], dist);
    }
  }

  /** Where the last located contact among the hops passed stands, or else the endpoint. */
  function LastPosition(resolved: seq<Option<Contact>>, passed: seq<nat>, endpoint: Option<LatLng>): Option<LatLng>
    requires Indexes(passed, |resolved|)
  {
    if passed == [] then endpoint
    else
      var last := resolved[passed[|passed| - 1]];
      if last.Some? && last.value.Position().Some? then last.value.Position()
      else LastPosition(resolved, passed[..|passed| - 1], endpoint)
  }

  lemma {:induction false} LastPositionSame(a: seq<Option<Contact>>, b: seq<Option<Contact>>, passed: seq<nat>, endpoint: Option<LatLng>)
    requires |a| == |b| && Indexes(passed, |a|) && forall i :: i in passed ==> a[i] == b[i]
    ensures LastPosition(a, passed, endpoint) == LastPosition(b, passed, endpoint)
    decreases |passed|
  {
    if passed != [] {
      LastPositionSame(a, b, passed[..|passed| - 1], endpoint);
    }
  }

  lemma {:induction false} RunPosition(hops: seq<Hop>, pr: Progress, passed: seq<nat>, dist: Distance)
    requires |pr.resolved| == |hops| && Indexes(passed, |hops|)
    requires Distinct(passed)
    requires forall k :: 0 <= k < |passed| ==> pr.resolved[passed[k]] == None
    ensures
      var end := Run(hops, pr, passed, dist);
      end.prev == LastPosition(end.resolved, passed, pr.prev)
    decreases |passed|
  {
    if passed != [] {
      var front, last := passed[..|passed| - 1], passed[|passed| - 1];
      var mid := Run(hops, pr, front, dist);
      RunPosition(hops, pr, front, dist);
      assert passed == front + [last];
      RunAppend(hops, pr, front, [last], dist);
      RunKeeps(hops, pr, front, dist, last);
      LastPositionSame(mid.resolved, Step(hops, mid, last, dist).resolved, front, pr.prev);
      assert [last][1..] == [];
    }
  }

  /** What is placed at hop i is what its own step places. */
  lemma PlacedOnce(hops: seq<Hop>, start: Progress, front: seq<nat>, i: nat, back: seq<nat>, dist: Distance)
    requires |start.resolved| == |hops| && Indexes(front, |hops|) && Indexes(back, |hops|) && i < |hops|
    requires i !in back
    ensures Run(hops, start, front + ([i] + back), dist).resolved[i]
         == Step(hops, Run(hops, start, front, dist), i, dist).resolved[i]
  {
    RunAppend(hops, start, front, [i] + back, dist);
    assert ([i] + back)[1..] == back;
    RunKeeps(hops, Step(hops, Run(hops, start, front, dist), i, dist), back, dist, i);
  }

  /** A step at an open hop places the best candidate left, or nothing if none is left. */
  lemma StepPlaces(hops: seq<Hop>, pr: Progress, i: nat, dist: Distance)
    requires i < |hops| == |pr.resolved| && pr.resolved[i] == None && AllDescending(pr.pool)
    ensures
      var left := At(pr.pool, FormatHopHex(hops[i]));
      var placed := Step(hops, pr, i, dist).resolved[i];
      if left == [] then placed == None else placed.Some? && BestChoice(placed.value, left, pr.prev, dist)
  {
    var left := At(pr.pool, FormatHopHex(hops[i]));
    assert Descending(left);
    if left != [] {
      PickIsBest(left, pr.prev, dist);
    }
  }

  lemma SplitOrder(order: seq<nat>, k: nat)
    requires k < |order| && Distinct(order)
    ensures order == order[..k] + ([order[k]] + order[k + 1..])
    ensures order[k] !in order[..k] && order[k] !in order[k + 1..] && Distinct(order[..k])
  {}

  lemma TakenBefore(hops: seq<Hop>, pool: Pool, endpoint: Option<LatLng>, fromEnd: bool, dist: Distance, k: nat, p: string)
    requires k < |hops|
    ensures
      var before := Run(hops, Fresh(|hops|, pool, endpoint), Order(|hops|, fromEnd)[..k], dist);
      Taken(hops, before.resolved, p, |hops|) + multiset(At(before.pool, p)) == multiset(At(pool, p))
  {
    var order := Order(|hops|, fromEnd);
    FreshBalanced(hops, pool, endpoint, fromEnd);
    assert order == order[..k] + order[k..];
    RunBalanced(hops, pool, Fresh(|hops|, pool, endpoint), order[..k], order[k..], dist);
  }

  /**
   * Every hop, in the order of the walk: the contact put there is the best choice, as
   * seen from the last located contact before it, among the candidates of its name not
   * taken before; it stays open only if there are none.
   */
  lemma ChoiceInOrder(hops: seq<Hop>, contacts: seq<Contact>, width: nat, pool: Pool,
                          endpoint: Option<LatLng>, fromEnd: bool, dist: Distance, k: nat)
    requires Arranged(contacts, width, pool) && k < |hops|
    ensures
      var order := Order(|hops|, fromEnd);
      var resolved := Run(hops, Fresh(|hops|, pool, endpoint), order, dist).resolved;
      var before := Run(hops, Fresh(|hops|, pool, endpoint), order[..k], dist);
      var p := FormatHopHex(hops[order[k]]);
      var left := At(before.pool, p);
      && Taken(hops, before.resolved, p, |hops|) + multiset(left) == multiset(Bucket(contacts, width, p))
      && (if left == [] then resolved[order[k]] == None
          else
            && resolved[order[k]].Some?
            && BestChoice(resolved[order[k]].value, left, LastPosition(before.resolved, order[..k], endpoint), dist))
  {
    var order := Order(|hops|, fromEnd);
    var start := Fresh(|hops|, pool, endpoint);
    var i := order[k];
    SplitOrder(order, k);
    TakenBefore(hops, pool, endpoint, fromEnd, dist, k, FormatHopHex(hops[i]));
    RunDescending(hops, start, order[..k], dist);
    RunPosition(hops, start, order[..k], dist);
    RunKeeps(hops, start, order[..k], dist, i);
    PlacedOnce(hops, start, order[..k], i, order[k + 1..], dist);
    StepPlaces(hops, Run(hops, start, order[..k], dist), i, dist);
  }

  // ----- the choices, on the final result

  /** The contacts resolved at hops named p, from hop lo up to hi. */
  function TakenFrom(hops: seq<Hop>, resolved: seq<Option<Contact>>, p: string, lo: nat, hi: nat): multiset<Contact>
    requires lo <= hi <= |hops| == |resolved|
    decreases hi
  {
    if lo == hi then multiset{} else TakenFrom(hops, resolved, p, lo, hi - 1) + Share(hops[hi - 1], resolved[hi - 1], p)
  }

  function PlaceOf(r: Option<Contact>): Option<LatLng> {
    if r.Some? then r.value.Position() else None
  }

  /** The position of the last located contact before hop i, else the endpoint. */
  function SeenBefore(resolved: seq<Option<Contact>>, i: nat, endpoint: Option<LatLng>): Option<LatLng>
    requires i <= |resolved|
  {
    if i == 0 then endpoint
    else if PlaceOf(resolved[i - 1]).Some? then PlaceOf(resolved[i - 1])
    else SeenBefore(resolved, i - 1, endpoint)
  }

  /** The position of the first located contact from hop i on, else the endpoint. */
  function SeenAfter(resolved: seq<Option<Contact>>, i: nat, endpoint: Option<LatLng>): Option<LatLng>
    requires i <= |resolved|
    decreases |resolved| - i
  {
    if i == |resolved| then endpoint
    else if PlaceOf(resolved[i]).Some? then PlaceOf(resolved[i])
    else SeenAfter(resolved, i + 1, endpoint)
  }

  /** A nearest located candidate, of equally near ones a most recently seen, if there is one and a place to measure from; else a most recently seen; none if none is left. */
  ghost predicate ChosenFrom(r: Option<Contact>, left: multiset<Contact>, from: Option<LatLng>, dist: Distance) {
    && (r == None <==> left == multiset{})
    && (r.Some? ==>
      && r.value in left
      && if from.Some? && exists c :: c in left && c.Position().Some?
         then
           && r.value.Position().Some?
           && forall c :: c in left && c.Position().Some? ==> Nearer(r.value, c, from.value, dist)
         else
           forall c :: c in left ==> c.lastSeen <= r.value.lastSeen)
  }

  /** a is b between lo and hi, and open elsewhere. */
  ghost predicate OnlyBetween(a: seq<Option<Contact>>, b: seq<Option<Contact>>, lo: nat, hi: nat) {
    |a| == |b| && forall j :: 0 <= j < |a| ==> a[j] == if lo <= j < hi then b[j] else None
  }

  lemma {:induction false} TakenFromNone(hops: seq<Hop>, a: seq<Option<Contact>>, p: string, lo: nat, hi: nat)
    requires lo <= hi <= |hops| == |a| && forall j :: lo <= j < hi ==> a[j] == None
    ensures TakenFrom(hops, a, p, lo, hi) == multiset{}
    decreases hi
  {
    if lo < hi {
      TakenFromNone(hops, a, p, lo, hi - 1);
    }
  }

  lemma {:induction false} TakenFromSame(hops: seq<Hop>, a: seq<Option<Contact>>, b: seq<Option<Contact>>, p: string, lo: nat, hi: nat)
    requires lo <= hi <= |hops| == |a| == |b| && forall j :: lo <= j < hi ==> a[j] == b[j]
    ensures TakenFrom(hops, a, p, lo, hi) == TakenFrom(hops, b, p, lo, hi)
    decreases hi
  {
    if lo < hi {
      TakenFromSame(hops, a, b, p, lo, hi - 1);
    }
  }

  lemma {:induction false} TakenSplits(hops: seq<Hop>, a: seq<Option<Contact>>, p: string, mid: nat, hi: nat)
    requires mid <= hi <= |hops| == |a|
    ensures Taken(hops, a, p, hi) == Taken(hops, a, p, mid) + TakenFrom(hops, a, p, mid, hi)
    decreases hi
  {
    if mid < hi {
      TakenSplits(hops, a, p, mid, hi - 1);
      SumAssoc(Taken(hops, a, p, mid), TakenFrom(hops, a, p, mid, hi - 1), Share(hops[hi - 1], a[hi - 1], p));
    }
  }

  lemma SumAssoc<T>(a: multiset<T>, b: multiset<T>, c: multiset<T>)
    ensures a + (b + c) == (a + b) + c && a + multiset{} == a && multiset{} + a == a
  {}

  lemma TakenOnly(hops: seq<Hop>, a: seq<Option<Contact>>, b: seq<Option<Contact>>, p: string, lo: nat, hi: nat)
    requires |hops| == |a| && OnlyBetween(a, b, lo, hi) && lo <= hi <= |hops|
    ensures Taken(hops, a, p, |hops|) == TakenFrom(hops, b, p, lo, hi)
  {
    TakenSplits(hops, a, p, 0, lo);
    TakenSplits(hops, a, p, lo, hi);
    TakenSplits(hops, a, p, hi, |hops|);
    TakenFromNone(hops, a, p, 0, lo);
    TakenFromSame(hops, a, b, p, lo, hi);
    TakenFromNone(hops, a, p, hi, |hops|);
    SumAssoc(TakenFrom(hops, b, p, lo, hi), multiset{}, multiset{});
  }

  lemma {:induction false} LastIsBefore(a: seq<Option<Contact>>, b: seq<Option<Contact>>, passed: seq<nat>, k: nat, hi: nat, endpoint: Option<LatLng>)
    requires OnlyBetween(a, b, 0, hi) && k <= hi <= |a|
    requires |passed| == k && forall j :: 0 <= j < k ==> passed[j] == j
    ensures Indexes(passed, |a|) && LastPosition(a, passed, endpoint) == SeenBefore(b, k, endpoint)
  {
    if k != 0 {
      LastIsBefore(a, b, passed[..k - 1], k - 1, hi, endpoint);
      assert a[k - 1] == b[k - 1];
    }
  }

  lemma {:induction false} LastIsAfter(a: seq<Option<Contact>>, b: seq<Option<Contact>>, passed: seq<nat>, k: nat, lo: nat, endpoint: Option<LatLng>)
    requires OnlyBetween(a, b, lo, |a|) && lo <= |a| - k && k <= |a|
    requires |passed| == k && forall j :: 0 <= j < k ==> passed[j] == |a| - 1 - j
    ensures Indexes(passed, |a|) && LastPosition(a, passed, endpoint) == SeenAfter(b, |a| - k, endpoint)
  {
    if k != 0 {
      LastIsAfter(a, b, passed[..k - 1], k - 1, lo, endpoint);
      assert a[|a| - k] == b[|a| - k];
    }
  }

  /** What the hops passed first were given stays; the others are still open. */
  lemma NotAgain(order: seq<nat>, k: nat, j: nat)
    requires Distinct(order) && k <= |order| && j in order[..k]
    ensures j !in order[k..]
  {
    var a :| 0 <= a < k && order[..k][a] == j;
    forall c | 0 <= c < |order[k..]|
      ensures order[k..][c] != j
    {
      assert order[k..][c] == order[k + c];
    }
  }

  lemma PassedAlready(hops: seq<Hop>, start: Progress, order: seq<nat>, k: nat, dist: Distance, j: nat)
    requires |start.resolved| == |hops| && Indexes(order, |hops|) && Distinct(order) && k <= |order| && j < |hops|
    requires start.resolved[j] == None
    ensures
      var before, end := Run(hops, start, order[..k], dist).resolved, Run(hops, start, order, dist).resolved;
      && (j in order[..k] ==> before[j] == end[j])
      && (j !in order[..k] ==> before[j] == None)
  {
    var front, back := order[..k], order[k..];
    assert order == front + back;
    RunAppend(hops, start, front, back, dist);
    if j in front {
      NotAgain(order, k, j);
      RunKeeps(hops, Run(hops, start, front, dist), back, dist, j);
    } else {
      RunKeeps(hops, start, front, dist, j);
    }
  }

  /** Before the hop at place k of the walk, exactly the hops on the one side of it are done. */
  lemma DoneSoFar(hops: seq<Hop>, pool: Pool, endpoint: Option<LatLng>, fromEnd: bool, dist: Distance, i: nat, k: nat)
    requires i < |hops| && k == if fromEnd then |hops| - 1 - i else i
    ensures
      var order, start := Order(|hops|, fromEnd), Fresh(|hops|, pool, endpoint);
      && order[k] == i
      && OnlyBetween(Run(hops, start, order[..k], dist).resolved, Run(hops, start, order, dist).resolved,
                     if fromEnd then i + 1 else 0, if fromEnd then |hops| else i)
  {
    var order, start := Order(|hops|, fromEnd), Fresh(|hops|, pool, endpoint);
    forall j | 0 <= j < |hops|
      ensures Run(hops, start, order[..k], dist).resolved[j]
           == if (if fromEnd then i + 1 <= j else j < i) then Run(hops, start, order, dist).resolved[j] else None
    {
      PassedAlready(hops, start, order, k, dist, j);
      PassedWhich(|hops|, fromEnd, i, k, j);
    }
  }

  lemma PassedWhich(n: nat, fromEnd: bool, i: nat, k: nat, j: nat)
    requires i < n && j < n && k == if fromEnd then n - 1 - i else i
    ensures j in Order(n, fromEnd)[..k] <==> if fromEnd then i + 1 <= j else j < i
  {
    var order := Order(n, fromEnd);
    if fromEnd && i + 1 <= j {
      assert order[..k][n - 1 - j] == j;
    } else if !fromEnd && j < i {
      assert order[..k][j] == j;
    }
  }

  lemma ChosenFromRest(r: Option<Contact>, left: seq<Contact>, taken: multiset<Contact>, all: multiset<Contact>,
                       from: Option<LatLng>, dist: Distance)
    requires taken + multiset(left) == all
    requires if left == [] then r == None else r.Some? && BestChoice(r.value, left, from, dist)
    ensures taken <= all && ChosenFrom(r, all - taken, from, dist)
  {
    assert all - taken == multiset(left);
    assert forall c :: c in left <==> c in multiset(left);
    if left != [] {
      assert left[0] in multiset(left);
    }
  }

  /**
   * Whatever came out: every hop is given the best of the candidates with its name that no hop before it was
   * given (after it, when resolving from the end), as seen from the last located contact passed, else from
   * the endpoint; and none if and only if there is no such candidate left.
   */
  lemma EveryChoiceIsBest(resolved: seq<Option<Contact>>, path: seq<byte>, contacts: seq<Contact>,
                          endpoint: Option<LatLng>, fromEnd: bool, width: nat, dist: Distance, i: nat)
    requires 1 <= width && Resolves(resolved, path, contacts, endpoint, fromEnd, width, dist)
    requires i < |Split(path, width)|
    ensures
      var hops := Split(path, width);
      && |resolved| == |hops|
      && var p := FormatHopHex(hops[i]);
      var bucket := multiset(Bucket(contacts, width, p));
      var taken := if fromEnd then TakenFrom(hops, resolved, p, i + 1, |hops|) else TakenFrom(hops, resolved, p, 0, i);
      var from := if fromEnd then SeenAfter(resolved, i + 1, endpoint) else SeenBefore(resolved, i, endpoint);
      taken <= bucket && ChosenFrom(resolved[i], bucket - taken, from, dist)
  {
    var pool: Pool :| Arranged(contacts, width, pool)
      && resolved == ResolvedRun(path, width, pool, endpoint, fromEnd, dist).resolved;
    ChoiceInPool(Split(path, width), contacts, width, pool, endpoint, fromEnd, dist, i,
                 if fromEnd then |Split(path, width)| - 1 - i else i);
  }

  lemma ChoiceInPool(hops: seq<Hop>, contacts: seq<Contact>, width: nat, pool: Pool,
                     endpoint: Option<LatLng>, fromEnd: bool, dist: Distance, i: nat, k: nat)
    requires Arranged(contacts, width, pool) && i < |hops| && k == if fromEnd then |hops| - 1 - i else i
    ensures
      var resolved := Run(hops, Fresh(|hops|, pool, endpoint), Order(|hops|, fromEnd), dist).resolved;
      var p := FormatHopHex(hops[i]);
      var bucket := multiset(Bucket(contacts, width, p));
      var taken := if fromEnd then TakenFrom(hops, resolved, p, i + 1, |hops|) else TakenFrom(hops, resolved, p, 0, i);
      var from := if fromEnd then SeenAfter(resolved, i + 1, endpoint) else SeenBefore(resolved, i, endpoint);
      taken <= bucket && ChosenFrom(resolved[i], bucket - taken, from, dist)
  {
    var order, start := Order(|hops|, fromEnd), Fresh(|hops|, pool, endpoint);
    var resolved, before := Run(hops, start, order, dist).resolved, Run(hops, start, order[..k], dist);
    var p := FormatHopHex(hops[i]);
    DoneSoFar(hops, pool, endpoint, fromEnd, dist, i, k);
    ChoiceInOrder(hops, contacts, width, pool, endpoint, fromEnd, dist, k);
    ChoiceCarriedOver(hops, before.resolved, resolved, p, endpoint, fromEnd, order[..k], i, k, At(before.pool, p),
                      multiset(Bucket(contacts, width, p)), dist);
  }

  lemma ChoiceCarriedOver(hops: seq<Hop>, before: seq<Option<Contact>>, resolved: seq<Option<Contact>>, p: string,
                          endpoint: Option<LatLng>, fromEnd: bool, passed: seq<nat>, i: nat, k: nat,
                          left: seq<Contact>, all: multiset<Contact>, dist: Distance)
    requires i < |hops| == |before| == |resolved| && k == (if fromEnd then |hops| - 1 - i else i) && |passed| == k
    requires forall j :: 0 <= j < k ==> passed[j] == if fromEnd then |hops| - 1 - j else j
    requires OnlyBetween(before, resolved, if fromEnd then i + 1 else 0, if fromEnd then |hops| else i)
    requires Taken(hops, before, p, |hops|) + multiset(left) == all && Indexes(passed, |hops|)
    requires if left == [] then resolved[i] == None
      else resolved[i].Some? && BestChoice(resolved[i].value, left, LastPosition(before, passed, endpoint), dist)
    ensures
      var taken := if fromEnd then TakenFrom(hops, resolved, p, i + 1, |hops|) else TakenFrom(hops, resolved, p, 0, i);
      var from := if fromEnd then SeenAfter(resolved, i + 1, endpoint) else SeenBefore(resolved, i, endpoint);
      taken <= all && ChosenFrom(resolved[i], all - taken, from, dist)
  {
    PassedSoFar(hops, before, resolved, p, endpoint, fromEnd, passed, i, k);
    ChosenFromRest(resolved[i], left, Taken(hops, before, p, |hops|), all, LastPosition(before, passed, endpoint), dist);
  }

  lemma PassedSoFar(hops: seq<Hop>, before: seq<Option<Contact>>, resolved: seq<Option<Contact>>, p: string,
                    endpoint: Option<LatLng>, fromEnd: bool, passed: seq<nat>, i: nat, k: nat)
    requires i < |hops| == |before| == |resolved| && k == (if fromEnd then |hops| - 1 - i else i) && |passed| == k
    requires forall j :: 0 <= j < k ==> passed[j] == if fromEnd then |hops| - 1 - j else j
    requires OnlyBetween(before, resolved, if fromEnd then i + 1 else 0, if fromEnd then |hops| else i)
    ensures Taken(hops, before, p, |hops|)
         == if fromEnd then TakenFrom(hops, resolved, p, i + 1, |hops|) else TakenFrom(hops, resolved, p, 0, i)
    ensures Indexes(passed, |hops|) && LastPosition(before, passed, endpoint)
         == if fromEnd then SeenAfter(resolved, i + 1, endpoint) else SeenBefore(resolved, i, endpoint)
  {
    if fromEnd {
      TakenOnly(hops, before, resolved, p, i + 1, |hops|);
      LastIsAfter(before, resolved, passed, k, i + 1, endpoint);
    } else {
      TakenOnly(hops, before, resolved, p, 0, i);
      LastIsBefore(before, resolved, passed, k, i, endpoint);
    }
  }

  // ----- resolve, as the loops it is

  function Inserted<T>(s: seq<T>, k: nat, t: T): seq<T>
    requires k <= |s|
  {
    s[..k] + [t] + s[k..]
  }

  lemma InsertedMultiset<T>(s: seq<T>, k: nat, t: T)
    requires k <= |s|
    ensures multiset(Inserted(s, k, t)) == multiset(s) + multiset{t}
  {
    assert s == s[..k] + s[k..];
  }

  lemma InsertedDescends(cs: seq<Contact>, k: nat, c: Contact)
    requires k <= |cs| && Descending(cs)
    requires forall j :: 0 <= j < k ==> c.lastSeen <= cs[j].lastSeen
    requires k < |cs| ==> cs[k].lastSeen <= c.lastSeen
    ensures Descending(Inserted(cs, k, c))
  {}

  /** Sorting by last sight; the order of ties is not relied upon. */
  method SortByLastSeen(cs0: seq<Contact>) returns (cs: seq<Contact>)
    ensures multiset(cs) == multiset(cs0) && Descending(cs)
  {
    cs := [];
    for i := 0 to |cs0|
      invariant multiset(cs) == multiset(cs0[..i]) && Descending(cs)
    {
      assert cs0[..i + 1] == cs0[..i] + [cs0[i]];
      cs := InsertSorted(cs, cs0[i]);
    }
    assert cs0[..|cs0|] == cs0;
  }

  method InsertSorted(cs0: seq<Contact>, c: Contact) returns (cs: seq<Contact>)
    requires Descending(cs0)
    ensures multiset(cs) == multiset(cs0) + multiset{c} && Descending(cs)
  {
    var k := 0;
    while k < |cs0| && c.lastSeen <= cs0[k].lastSeen
      invariant 0 <= k <= |cs0|
      invariant forall j :: 0 <= j < k ==> c.lastSeen <= cs0[j].lastSeen
    {
      k := k + 1;
    }
    InsertedMultiset(cs0, k, c);
    InsertedDescends(cs0, k, c);
    cs := Inserted(cs0, k, c);
  }

  method GroupByPrefix(contacts: seq<Contact>, width: nat) returns (pool: Pool)
    ensures forall p :: At(pool, p) == Bucket(contacts, width, p)
  {
    pool := map[];
    for i := 0 to |contacts|
      invariant forall p :: At(pool, p) == Bucket(contacts[..i], width, p)
    {
      var c := contacts[i];
      forall p
        ensures Bucket(contacts[..i + 1], width, p)
             == Bucket(contacts[..i], width, p) + (if InBucket(c, width, p) then [c] else [])
      {
        assert contacts[..i + 1] == contacts[..i] + [c];
        BucketSnoc(contacts[..i], c, width, p);
      }
      if |c.publicKey| < width {
        continue;
      }
      if c.kind != ADV_TYPE_REPEATER && c.kind != ADV_TYPE_ROOM {
        continue;
      }
      var prefix := FormatHopHex(c.publicKey[..width]);
      pool := pool[prefix := At(pool, prefix) + [c]];
    }
    assert contacts[..|contacts|] == contacts;
  }

  method SortPool(pool0: Pool) returns (pool: Pool)
    ensures forall p :: multiset(At(pool, p)) == multiset(At(pool0, p)) && Descending(At(pool, p))
  {
    pool := pool0;
    var todo := pool0.Keys;
    while todo != {}
      invariant todo <= pool.Keys == pool0.Keys
      invariant forall p :: multiset(At(pool, p)) == multiset(At(pool0, p))
      invariant forall p :: p !in todo ==> Descending(At(pool, p))
      decreases todo
    {
      var p :| p in todo;
      var sorted := SortByLastSeen(pool[p]);
      pool := pool[p := sorted];
      todo := todo - {p};
    }
  }

  /** The choice among several candidates, given where the previous hop was. */
  method BestIndex(cs: seq<Contact>, prev: Option<LatLng>, dist: Distance) returns (bestIndex: nat)
    requires cs != []
    ensures bestIndex == Pick(cs, prev, dist)
  {
    bestIndex := 0;
    if prev.Some? && 1 < |cs| {
      bestIndex := NearestIndex(cs, prev.value, dist);
    }
  }

  /** The best so far, and how far away it is. */
  ghost predicate BestSoFar(cs: seq<Contact>, from: LatLng, dist: Distance, i: nat, bestIndex: nat, nearestDistance: Option<real>)
    requires i <= |cs|
  {
    match Nearest(cs, from, dist, i)
    case None => nearestDistance == None && bestIndex == 0
    case Some(b) => bestIndex == b && nearestDistance == Some(dist(from, cs[b].Position().value))
  }

  method NearestIndex(cs: seq<Contact>, from: LatLng, dist: Distance) returns (bestIndex: nat)
    ensures match Nearest(cs, from, dist, |cs|)
      case None => bestIndex == 0
      case Some(b) => bestIndex == b
  {
    bestIndex := 0;
    var nearestDistance: Option<real> := None;
    for i := 0 to |cs|
      invariant BestSoFar(cs, from, dist, i, bestIndex, nearestDistance)
    {
      var position := cs[i].Position();
      if position.None? {
        continue;
      }
      var candidateDistance := dist(from, position.value);
      if nearestDistance.None? || candidateDistance < nearestDistance.value {
        nearestDistance := Some(candidateDistance);
        bestIndex := i;
      }
    }
  }

  /** The run over some arrangement of the candidates gives this. */
  ghost predicate Resolves(resolved: seq<Option<Contact>>, path: seq<byte>, contacts: seq<Contact>,
                           endpoint: Option<LatLng>, fromEnd: bool, width: nat, dist: Distance)
    requires 1 <= width
  {
    exists pool: Pool :: Arranged(contacts, width, pool)
      && resolved == ResolvedRun(path, width, pool, endpoint, fromEnd, dist).resolved
  }

  method Resolve(pathBytes: seq<byte>, contacts: seq<Contact>, endpoint: Option<LatLng>, resolveFromEnd: bool,
                 pathHashByteWidth: int, dist: Distance)
    returns (resolved: seq<Option<Contact>>)
    ensures Resolves(resolved, pathBytes, contacts, endpoint, resolveFromEnd, Clamp(pathHashByteWidth, 1, 4), dist)
  {
    var width := Clamp(pathHashByteWidth, 1, 4);
    var grouped := GroupByPrefix(contacts, width);
    var pool := SortPool(grouped);
    ghost var pool0 := pool;
    var hops := SplitPathBytes(pathBytes, width);
    resolved := seq(|hops|, _ => None);
    var indexes := Order(|hops|, resolveFromEnd);
    var prev := endpoint;
    ghost var want := ResolvedRun(pathBytes, width, pool0, endpoint, resolveFromEnd, dist);
    for k := 0 to |indexes|
      invariant |resolved| == |hops|
      invariant want == Run(hops, Progress(resolved, pool, prev), indexes[k..], dist)
    {
      assert indexes[k..][1..] == indexes[k + 1..];
      var index := indexes[k];
      var prefix := FormatHopHex(hops[index]);
      var candidates := At(pool, prefix);
      if candidates == [] {
        continue;
      }
      var bestIndex := BestIndex(candidates, prev, dist);
      var contact := candidates[bestIndex];
      pool := pool[prefix := Without(candidates, bestIndex)];
      resolved := resolved[index := Some(contact)];
      prev := if contact.Position().Some? then contact.Position() else prev;
    }
    assert Arranged(contacts, width, pool0);
  }
}
