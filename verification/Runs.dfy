/** Runs of a step machine: any events, in any order. */
module Runs {

  /** The state after the events `es`. */
  function Play<S, E>(step: (S, E) -> S, s: S, es: seq<E>): S
  {
    if es == [] then s else step(Play(step, s, es[..|es| - 1]), es[|es| - 1])
  }

  /** What every step keeps, every run keeps. */
  lemma {:induction false} PlayKeeps<S(!new), E(!new)>(step: (S, E) -> S, inv: S -> bool, s: S, es: seq<E>)
    requires inv(s)
    requires forall s, e :: inv(s) ==> inv(step(s, e))
    ensures inv(Play(step, s, es))
  {
    if es != [] {
      PlayKeeps(step, inv, s, es[..|es| - 1]);
    }
  }

  /** A run is its first event, and then the rest. */
  lemma {:induction false} PlayFirst<S, E>(step: (S, E) -> S, s: S, es: seq<E>)
    requires es != []
    ensures Play(step, s, es) == Play(step, step(s, es[0]), es[1..])
  {
    var front := es[..|es| - 1];
    if front == [] {
      assert es == [es[0]] && es[1..] == [];
    } else {
      PlayFirst(step, s, front);
      assert es[1..][..|es| - 2] == front[1..] && front[0] == es[0];
    }
  }

  /** A run of two parts. */
  lemma {:induction false} PlayConcat<S, E>(step: (S, E) -> S, s: S, es: seq<E>, fs: seq<E>)
    ensures Play(step, s, es + fs) == Play(step, Play(step, s, es), fs)
  {
    if fs == [] {
      assert es + fs == es;
    } else {
      assert (es + fs)[..|es + fs| - 1] == es + fs[..|fs| - 1];
      PlayConcat(step, s, es, fs[..|fs| - 1]);
    }
  }

  lemma PlayOne<S, E>(step: (S, E) -> S, s: S, a: E)
    ensures Play(step, s, [a]) == step(s, a)
  {
    assert [a][..0] == [];
    assert Play(step, s, [a]) == step(Play(step, s, []), a);
  }

  lemma PlayThree<S, E>(step: (S, E) -> S, s: S, a: E, b: E, c: E)
    ensures Play(step, s, [a, b, c]) == step(step(step(s, a), b), c)
  {
    assert [a, b, c][..2] == [a, b] && [a, b][..1] == [a];
    PlayOne(step, s, a);
  }

  lemma PlayFive<S, E>(step: (S, E) -> S, s: S, a: E, b: E, c: E, d: E, e: E)
    ensures Play(step, s, [a, b, c, d, e]) == step(step(step(step(step(s, a), b), c), d), e)
  {
    PlayFirst(step, s, [a, b, c, d, e]);
    PlayFirst(step, step(s, a), [b, c, d, e]);
    assert [a, b, c, d, e][1..] == [b, c, d, e] && [b, c, d, e][1..] == [c, d, e];
    PlayThree(step, step(step(s, a), b), c, d, e);
  }

  // ----- moments of a run

  /** How many events lead up to the last one that `begins`, with it; 0 if none does. */
  function Since<S, E>(step: (S, E) -> S, s: S, es: seq<E>, begins: (S, E) -> bool): (n: nat)
    ensures n <= |es|
  {
    if es == [] then 0
    else if begins(Play(step, s, es[..|es| - 1]), es[|es| - 1]) then |es|
    else Since(step, s, es[..|es| - 1], begins)
  }

  /** At some moment of the run, from the `n`-th event on, `p` holds. */
  ghost predicate Sometime<S, E>(step: (S, E) -> S, s: S, es: seq<E>, n: nat, p: S -> bool)
  {
    exists i :: n <= i <= |es| && p(Play(step, s, es[..i]))
  }

  lemma SometimeStays<S, E>(step: (S, E) -> S, s: S, es: seq<E>, n: nat, p: S -> bool)
    requires es != [] && Sometime(step, s, es[..|es| - 1], n, p)
    ensures Sometime(step, s, es, n, p)
  {
    var i :| n <= i <= |es| - 1 && p(Play(step, s, es[..|es| - 1][..i]));
    assert es[..|es| - 1][..i] == es[..i];
  }

  lemma SometimeNow<S, E>(step: (S, E) -> S, s: S, es: seq<E>, n: nat, p: S -> bool)
    requires n <= |es| && p(Play(step, s, es))
    ensures Sometime(step, s, es, n, p)
  {
    assert es[..|es|] == es;
  }

  // ----- runs of one thread alone

  /** The same event `n` times. */
  function Repeat<E>(e: E, n: nat): seq<E>
  {
    seq(n, _ => e)
  }

  /** When the same event happens again and again, and nothing else, `done` comes to hold after at most `n` times. */
  ghost predicate Ends<S, E>(step: (S, E) -> S, s: S, e: E, n: nat, done: S -> bool)
  {
    exists k :: 0 <= k <= n && done(Play(step, s, Repeat(e, k)))
  }

  /** It does when a measure falls each time until then. */
  lemma {:induction false} FallingEnds<S(!new), E>(
    step: (S, E) -> S, s: S, e: E, inv: S -> bool, left: S -> nat, done: S -> bool)
    requires inv(s)
    requires forall s :: inv(s) && !done(s) ==> inv(step(s, e)) && left(step(s, e)) < left(s)
    ensures Ends(step, s, e, left(s), done)
    decreases left(s)
  {
    if done(s) {
      assert Play(step, s, Repeat(e, 0)) == s;
    } else {
      FallingEnds(step, step(s, e), e, inv, left, done);
      var k :| 0 <= k <= left(step(s, e)) && done(Play(step, step(s, e), Repeat(e, k)));
      PlayFirst(step, s, Repeat(e, k + 1));
      assert Repeat(e, k + 1)[1..] == Repeat(e, k);
    }
  }
}
