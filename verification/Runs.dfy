/**
 * Runs of a machine that answers every event with a block of effects, each of which
 * moves the state. S, V and E are states, events and effects.
 */
module Runs {
  import opened Prelude

  // ----- lists gathered from effects

  /** The pieces f makes of every element, one after the other. */
  function Collect<A, B>(f: A -> seq<B>, xs: seq<A>): seq<B> {
    if xs == [] then [] else f(xs[0]) + Collect(f, xs[1..])
  }

  lemma {:induction false} CollectAppend<A, B>(f: A -> seq<B>, a: seq<A>, b: seq<A>)
    ensures Collect(f, a + b) == Collect(f, a) + Collect(f, b)
  {
    if a == [] {
      assert a + b == b;
    } else {
      assert (a + b)[1..] == a[1..] + b;
      CollectAppend(f, a[1..], b);
      ConcatAssoc(f(a[0]), Collect(f, a[1..]), Collect(f, b));
    }
  }

  lemma CollectOne<A, B>(f: A -> seq<B>, x: A)
    ensures Collect(f, [x]) == f(x)
  {
    assert [x][1..] == [];
    assert f(x) + [] == f(x);
  }

  lemma CollectLast<A, B>(f: A -> seq<B>, front: seq<A>, last: A)
    ensures Collect(f, front + [last]) == Collect(f, front) + f(last)
  {
    CollectAppend(f, front, [last]);
    CollectOne(f, last);
  }

  /** What holds of every piece holds of all that is collected. */
  lemma {:induction false} CollectAll<A, B>(f: A -> seq<B>, p: B -> bool, xs: seq<A>)
    requires forall x, i :: x in xs && 0 <= i < |f(x)| ==> p(f(x)[i])
    ensures forall i :: 0 <= i < |Collect(f, xs)| ==> p(Collect(f, xs)[i])
  {
    if xs != [] {
      assert xs[0] in xs && forall x :: x in xs[1..] ==> x in xs;
      CollectAll(f, p, xs[1..]);
    }
  }

  /** What is in a piece is in all that is collected. */
  lemma {:induction false} CollectContains<A, B>(f: A -> seq<B>, xs: seq<A>, x: A, y: B)
    requires x in xs && y in f(x)
    ensures y in Collect(f, xs)
  {
    if x == xs[0] {
      assert y in f(xs[0]);
    } else {
      assert x in xs[1..];
      CollectContains(f, xs[1..], x, y);
    }
  }

  // ----- states

  function Fold<S, E>(apply: (S, E) -> S, s: S, es: seq<E>): S
    decreases |es|
  {
    if es == [] then s else Fold(apply, apply(s, es[0]), es[1..])
  }

  lemma {:induction false} FoldAppend<S, E>(apply: (S, E) -> S, s: S, a: seq<E>, b: seq<E>)
    ensures Fold(apply, s, a + b) == Fold(apply, Fold(apply, s, a), b)
    decreases |a|
  {
    if a == [] {
      assert a + b == b;
    } else {
      assert (a + b)[1..] == a[1..] + b;
      FoldAppend(apply, apply(s, a[0]), a[1..], b);
    }
  }

  lemma FoldLast<S, E>(apply: (S, E) -> S, s: S, front: seq<E>, last: E)
    ensures Fold(apply, s, front + [last]) == apply(Fold(apply, s, front), last)
  {
    FoldAppend(apply, s, front, [last]);
    assert [last][1..] == [];
  }

  lemma FoldFirst<S, E>(apply: (S, E) -> S, s: S, first: E, rest: seq<E>)
    ensures Fold(apply, s, [first] + rest) == Fold(apply, apply(s, first), rest)
  {
    assert ([first] + rest)[1..] == rest;
  }

  lemma FoldFour<S, E>(apply: (S, E) -> S, s: S, a: E, b: E, c: E, d: E)
    ensures Fold(apply, s, [a, b, c, d]) == apply(apply(apply(apply(s, a), b), c), d)
  {
    FoldFirst(apply, s, a, [b, c, d]);
    FoldFirst(apply, apply(s, a), b, [c, d]);
    FoldFirst(apply, apply(apply(s, a), b), c, [d]);
    FoldFirst(apply, apply(apply(apply(s, a), b), c), d, []);
    assert [a] + [b, c, d] == [a, b, c, d] && [b] + [c, d] == [b, c, d] && [c] + [d] == [c, d] && [d] + [] == [d];
  }

  /** The effects of the first n events, block by block, as one list. */
  function Joined<E>(blocks: seq<seq<E>>, n: nat): seq<E>
    requires n <= |blocks|
  {
    if n == 0 then [] else Joined(blocks, n - 1) + blocks[n - 1]
  }

  /** The state before event n. */
  function StateAt<S, E>(apply: (S, E) -> S, s: S, blocks: seq<seq<E>>, n: nat): S
    requires n <= |blocks|
  {
    Fold(apply, s, Joined(blocks, n))
  }

  lemma StateAtNext<S, E>(apply: (S, E) -> S, s: S, blocks: seq<seq<E>>, n: nat)
    requires n < |blocks|
    ensures StateAt(apply, s, blocks, n + 1) == Fold(apply, StateAt(apply, s, blocks, n), blocks[n])
  {
    FoldAppend(apply, s, Joined(blocks, n), blocks[n]);
  }

  lemma {:induction false} JoinedPrefix<E>(a: seq<seq<E>>, b: seq<seq<E>>, n: nat)
    requires n <= |a|
    ensures Joined(a + b, n) == Joined(a, n)
  {
    if n != 0 {
      JoinedPrefix(a, b, n - 1);
    }
  }

  /** What is in a block is in all blocks joined. */
  lemma {:induction false} JoinedContains<E>(blocks: seq<seq<E>>, n: nat, i: nat, e: E)
    requires i < n <= |blocks| && e in blocks[i]
    ensures e in Joined(blocks, n)
  {
    if i < n - 1 {
      JoinedContains(blocks, n - 1, i, e);
    }
  }

  /** Block i passes on what holds of the blocks before it. */
  ghost predicate PassedOn<E>(p: (seq<E>, nat) -> bool, blocks: seq<seq<E>>, i: nat)
    requires i < |blocks|
  {
    p(Joined(blocks, i), i) ==> p(Joined(blocks, i) + blocks[i], i + 1)
  }

  /** What every block passes on holds of all blocks joined. */
  lemma {:induction false} JoinedGrows<E>(p: (seq<E>, nat) -> bool, blocks: seq<seq<E>>, n: nat)
    requires n <= |blocks| && p([], 0)
    requires forall i: nat :: i < n ==> PassedOn(p, blocks, i)
    ensures p(Joined(blocks, n), n)
  {
    if n != 0 {
      JoinedGrows(p, blocks, n - 1);
      assert PassedOn(p, blocks, n - 1);
    }
  }

  lemma {:induction false} CollectNone<A, B>(f: A -> seq<B>, xs: seq<A>)
    requires forall i :: 0 <= i < |xs| ==> f(xs[i]) == []
    ensures Collect(f, xs) == []
  {
    if xs != [] {
      CollectNone(f, xs[1..]);
    }
  }

  // ----- executions

  /** Every event does what is decided in the state the events before it led to. */
  ghost predicate Execution<S, V, E>(
    decide: (S, V) -> seq<E>, apply: (S, E) -> S, s: S, events: seq<V>, blocks: seq<seq<E>>)
  {
    && |blocks| == |events|
    && forall i :: 0 <= i < |events| ==> blocks[i] == decide(StateAt(apply, s, blocks, i), events[i])
  }

  /** Every list of events has an execution. */
  lemma {:induction false} ExecutionExists<S, V, E>(
    decide: (S, V) -> seq<E>, apply: (S, E) -> S, s: S, events: seq<V>) returns (blocks: seq<seq<E>>)
    ensures Execution(decide, apply, s, events, blocks)
    decreases |events|
  {
    if events == [] {
      blocks := [];
    } else {
      var front := events[..|events| - 1];
      var before := ExecutionExists(decide, apply, s, front);
      var last := decide(StateAt(apply, s, before, |before|), events[|events| - 1]);
      blocks := before + [last];
      forall i | 0 <= i < |events|
        ensures blocks[i] == decide(StateAt(apply, s, blocks, i), events[i])
      {
        JoinedPrefix(before, [last], i);
      }
    }
  }

  // ----- projections

  /**
   * A part of the state that every effect moves as g moves with the pieces of the effect
   * is, after any list of effects, what g makes of all their pieces.
   */
  lemma {:induction false} Projects<S(!new), E(!new), B(!new), T>(
    apply: (S, E) -> S, view: S -> T, f: E -> seq<B>, g: seq<B> -> T, s: S, es: seq<E>)
    requires view(s) == g([])
    requires forall t, e, bs :: view(t) == g(bs) ==> view(apply(t, e)) == g(bs + f(e))
    ensures view(Fold(apply, s, es)) == g(Collect(f, es))
    decreases |es|
  {
    if es != [] {
      var front, last := es[..|es| - 1], es[|es| - 1];
      assert es == front + [last];
      Projects(apply, view, f, g, s, front);
      FoldLast(apply, s, front, last);
      CollectLast(f, front, last);
    }
  }

  // ----- invariants

  lemma {:induction false} FoldKeeps<S(!new), E(!new)>(apply: (S, E) -> S, inv: S -> bool, ok: E -> bool, s: S, es: seq<E>)
    requires inv(s) && forall i :: 0 <= i < |es| ==> ok(es[i])
    requires forall t, e :: inv(t) && ok(e) ==> inv(apply(t, e))
    ensures inv(Fold(apply, s, es))
    decreases |es|
  {
    if es != [] {
      FoldKeeps(apply, inv, ok, apply(s, es[0]), es[1..]);
    }
  }

  /**
   * If good effects keep the invariant, and in a state that satisfies it every event is
   * answered with good effects, then all states of a run satisfy it and all effects are good.
   */
  lemma {:induction false} RunKeeps<S(!new), E(!new)>(
    apply: (S, E) -> S, inv: S -> bool, ok: E -> bool, s: S, blocks: seq<seq<E>>, n: nat)
    requires n <= |blocks| && inv(s)
    requires forall t, e :: inv(t) && ok(e) ==> inv(apply(t, e))
    requires forall i, j :: 0 <= i < n && inv(StateAt(apply, s, blocks, i)) && 0 <= j < |blocks[i]| ==> ok(blocks[i][j])
    ensures inv(StateAt(apply, s, blocks, n))
    ensures forall i :: 0 <= i < |Joined(blocks, n)| ==> ok(Joined(blocks, n)[i])
  {
    if n != 0 {
      RunKeeps(apply, inv, ok, s, blocks, n - 1);
      StateAtNext(apply, s, blocks, n - 1);
      FoldKeeps(apply, inv, ok, StateAt(apply, s, blocks, n - 1), blocks[n - 1]);
    }
  }
}
