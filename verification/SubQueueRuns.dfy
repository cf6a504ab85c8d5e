/**
 The runs of the ticket protocol and of the look-up within those of module SubQueue: its counters go through a
 run of OptimisticDequeue, and its block index through one of ConcurrentLookUp, so that what holds of
 every run of those holds here.  And what has been enqueued can be published.
 */
module SubQueueRuns {
  import opened SubQueue
  import Q = OptimisticDequeue
  import L = ConcurrentLookUp
  import Runs

  // ----- the counters

  /** What the event does with the counters. */
  function CounterEvents(s: State, e: Event): seq<Q.Event>
  {
    if !Enabled(s, e) then []
    else
      match e
      case Begin(c, request) => [Q.Begin(c, request)]
      case Count(c) => [Q.Advance(c)]
      case Publish => [Q.Publish(|s.values| - s.q.tail)]
      case _ => []
  }

  function AllCounterEvents(init: State, es: seq<Event>): seq<Q.Event>
  {
    if es == [] then []
    else AllCounterEvents(init, es[..|es| - 1]) + CounterEvents(Play(init, es[..|es| - 1]), es[|es| - 1])
  }

  lemma CountersFollow(s: State, e: Event)
    ensures Step(s, e).q == Q.Play(s.q, CounterEvents(s, e))
  {
    hide L.Next, Q.Next;
    if CounterEvents(s, e) != [] {
      Runs.PlayOne(Q.Step, s.q, CounterEvents(s, e)[0]);
    }
  }

  /** The counters go through a run of the ticket protocol. */
  lemma {:induction false} CountersRun(init: State, es: seq<Event>)
    ensures Play(init, es).q == Q.Play(init.q, AllCounterEvents(init, es))
  {
    hide Step, CounterEvents, Q.Step;
    if es != [] {
      var front := es[..|es| - 1];
      CountersRun(init, front);
      CountersFollow(Play(init, front), es[|es| - 1]);
      Runs.PlayConcat(Q.Step, init.q, AllCounterEvents(init, front), CounterEvents(Play(init, front), es[|es| - 1]));
    }
  }

  // ----- the block index

  /** What the event does with the block index, and with the consumers that look blocks up in it. */
  function IndexEvents(s: State, e: Event): seq<L.Event>
  {
    if !Enabled(s, e) then []
    else
      match e
      case Count(c) =>
        if s.q.pcs[c].ClaimHead? && s.q.pcs[c].won > 0 then
          var stop := s.q.head + s.q.pcs[c].won;
          [L.Claim(c, Number(stop - 1, s.size)), L.MoveHead(Number(stop, s.size))]
        else []
      case Look(c) => [L.Advance(c)]
      case Raise(c) =>
        if NextFlag(s.shares[c]) > s.shares[c].from then []
        else [if s.shares[c].at < s.shares[c].stop then L.Follow(c) else L.Release(c)]
      case Turn => [L.Turn]
      case Insert(block) => [L.Insert(block)]
      case Write => [L.Write]
      case StoreFront => [L.StoreFront]
      case Grow(front) => [L.Grow(front)]
      case Publish => [L.Publish]
      case _ => []
  }

  function AllIndexEvents(init: State, es: seq<Event>): seq<L.Event>
  {
    if es == [] then []
    else AllIndexEvents(init, es[..|es| - 1]) + IndexEvents(Play(init, es[..|es| - 1]), es[|es| - 1])
  }

  /** A claim is the claim and the move of the head of the look-up's machine. */
  lemma JoinFollows(s: State, c: nat)
    requires Inv(s) && Enabled(s, Count(c)) && s.q.pcs[c].ClaimHead? && s.q.pcs[c].won > 0
    ensures Step(s, Count(c)).l == L.Play(s.l, IndexEvents(s, Count(c)))
  {
    hide L.Inv, Q.Inv, Ring, Readings, Number, ShareOk, Q.Next;
    var won, first, stop := s.q.pcs[c].won, s.q.head, s.q.head + s.q.pcs[c].won;
    ClaimIsThere(s.q, c);
    NoShare(s, c);
    LookFacts(s.l);
    NumberGrows(first, stop - 1, s.size);
    NumberGrows(first, stop, s.size);
    NumberBelow(stop - 1, s.l.published, s.size);
    NumberBelow(stop, s.l.published, s.size);
    var claim, move := L.Claim(c, Number(stop - 1, s.size)), L.MoveHead(Number(stop, s.size));
    L.StepInv(s.l, claim);
    LookFacts(L.Next(s.l, claim));
    Runs.PlayOne(L.Step, s.l, claim);
    Runs.PlayOne(L.Step, L.Step(s.l, claim), move);
    Runs.PlayConcat(L.Step, s.l, [claim], [move]);
    assert IndexEvents(s, Count(c)) == [claim] + [move];
  }

  lemma IndexFollows(s: State, e: Event)
    requires Inv(s)
    ensures Step(s, e).l == L.Play(s.l, IndexEvents(s, e))
  {
    hide Inv, Q.Next, Number, Offset, IsEmpty, InRing;
    if Enabled(s, e) {
      if e.Count? && s.q.pcs[e.c].ClaimHead? && s.q.pcs[e.c].won > 0 {
        JoinFollows(s, e.c);
      } else {
        if e.Turn? { EmptyIsOldest(s); }
        if IndexEvents(s, e) != [] { Runs.PlayOne(L.Step, s.l, IndexEvents(s, e)[0]); }
      }
    }
  }

  /** The block index and the consumers' look-ups go through a run of the look-up's machine. */
  lemma {:induction false} IndexRuns(init: State, es: seq<Event>)
    requires Initial(init)
    ensures Play(init, es).l == L.Play(init.l, AllIndexEvents(init, es))
  {
    hide Step, IndexEvents, L.Step, Inv;
    if es != [] {
      var front := es[..|es| - 1];
      IndexRuns(init, front);
      InitialInv(init);
      PlayInv(init, front);
      IndexFollows(Play(init, front), es[|es| - 1]);
      Runs.PlayConcat(L.Step, init.l, AllIndexEvents(init, front), IndexEvents(Play(init, front), es[|es| - 1]));
    }
  }

  // ----- publishing

  /**
   The producer can always publish what it has enqueued: with no entry half written, it stores the front, and
   then the tail, which is that of all its items.
   */
  lemma AllCanBePublished(init: State, es: seq<Event>)
    requires Initial(init)
    requires var s := Play(init, es); s.l.producer == L.Ready && s.q.tail < |s.values|
    ensures var s := Play(init, es);
      && Enabled(s, StoreFront) && Enabled(Next(s, StoreFront), Publish)
      && var s' := Next(Next(s, StoreFront), Publish); s'.q.tail == |s'.values| && s'.values == s.values
  {
    InitialInv(init);
    PlayInv(init, es);
    var s := Play(init, es);
    LookFacts(s.l);
    BlockOfLast(s);
    hide Inv;
    assert L.Current(s.l).lo < L.Current(s.l).hi;
  }

  /** The last item is in a block of the ring. */
  lemma BlockOfLast(s: State)
    requires Inv(s) && s.q.tail < |s.values|
    ensures s.l.head < |s.l.address|
  {
    hide L.Inv, Q.Inv, Ring, Readings, Shares;
    NumberBelow(s.q.head, |s.l.address|, s.size);
  }
}
