/**
 The counting semaphore: a signed counter over a kernel semaphore, with any number of threads that
 signal, wait, wait for several tokens, or give up waiting.

 Each step is one atomic operation on the counter or one call of the kernel semaphore; a thread's
 program counter names the operation it performs next and holds its local variables.  Waiting for
 one token is waiting for several with a maximum of one: the code paths coincide.

 `results` and `signalled` are history variables: no guard reads them.
 */
module Semaphore {
  import opened Counting
  import Runs

  /** How long a waiter that finds no token stays: not at all, as in `tryWait`; or until the kernel wait ends. */
  datatype Patience = Try | Poll | Timed | Forever

  datatype Pc =
    | Idle
    // tryWaitMany, on behalf of a call that has `got` tokens already
    | TryLoad(max: nat, patience: Patience, got: nat)
    | TryCas(max: nat, patience: Patience, got: nat, seen: int)
    // waitManyWithPartialSpinning
    | Spin(max: nat, patience: Patience, left: nat)
    | SpinCas(max: nat, patience: Patience, left: nat, seen: int)
    | Decrement(max: nat, patience: Patience)
    | Block(max: nat, patience: Patience)
    | Undo(max: nat, patience: Patience)
    | UndoTry(max: nat, patience: Patience)
    | UndoCas(max: nat, patience: Patience, seen: int)
    // signal
    | Add(n: nat)
    | Post(left: nat)

  /** A wait of thread `t` for up to `max` tokens has returned with `got` of them. */
  datatype Return = Return(t: nat, max: nat, patience: Patience, got: nat, gaveUp: bool)

  datatype State = State(
    maxSpins: nat,
    count: int,
    kernel: nat,
    pcs: seq<Pc>,
    results: seq<Return>,
    signalled: nat)

  datatype Event =
    | Wait(t: nat, max: nat, patience: Patience)
    | Signal(t: nat, n: nat)
    | Advance(t: nat)
    | GiveUp(t: nat)     // the kernel wait of t ends without a token

  ghost predicate Initial(s: State, initialCount: nat)
  {
    && s.count == initialCount && s.kernel == 0 && s.signalled == 0 && s.results == []
    && forall t :: 0 <= t < |s.pcs| ==> s.pcs[t] == Idle
  }

  predicate Enabled(s: State, e: Event)
  {
    e.t < |s.pcs| &&
    match e
    case Wait(t, _, _) => s.pcs[t] == Idle
    case Signal(t, _) => s.pcs[t] == Idle
    case Advance(t) => s.pcs[t] != Idle && (s.pcs[t].Block? ==> s.kernel > 0)
    case GiveUp(t) => s.pcs[t].Block?
  }

  function Goto(s: State, t: nat, pc: Pc): State
    requires t < |s.pcs|
  {
    s.(pcs := s.pcs[t := pc])
  }

  /** The wait of `t` for up to `max` tokens returns. */
  function Finish(s: State, t: nat, max: nat, patience: Patience, got: nat, gaveUp: bool): State
    requires t < |s.pcs|
  {
    Goto(s, t, Idle).(results := s.results + [Return(t, max, patience, got, gaveUp)])
  }

  /** The counter after up to `max` tokens are taken from `seen`. */
  function Left(seen: int, max: nat): int
  {
    if seen > max then seen - max else 0
  }

  /** `tryWaitMany(max)` ends with `taken` tokens. */
  function AfterTry(s: State, t: nat, max: nat, patience: Patience, got: nat, taken: nat): State
    requires t < |s.pcs|
  {
    if got + taken == 0 && max > 0 && patience != Try then Goto(s, t, SpinFrom(s.maxSpins, max, patience))
    else Finish(s, t, got + max, patience, got + taken, false)
  }

  function SpinFrom(left: nat, max: nat, patience: Patience): Pc
  {
    if left == 0 then Decrement(max, patience) else Spin(max, patience, left)
  }

  /** One token is there; `tryWaitMany` may fetch the others. */
  function Acquired(s: State, t: nat, max: nat, patience: Patience): State
    requires t < |s.pcs|
  {
    if max > 1 then Goto(s, t, TryLoad(max - 1, patience, 1)) else Finish(s, t, max, patience, 1, false)
  }

  function Next(s: State, e: Event): State
    requires Enabled(s, e)
  {
    match e
    case Wait(t, max, patience) => Goto(s, t, TryLoad(max, patience, 0))
    case Signal(t, n) => Goto(s, t, Add(n))
    case GiveUp(t) => Goto(s, t, Undo(s.pcs[t].max, s.pcs[t].patience))
    case Advance(t) => Move(s, t)
  }

  function Move(s: State, t: nat): State
    requires t < |s.pcs| && (s.pcs[t].Block? ==> s.kernel > 0)
  {
    match s.pcs[t]
    case Idle => s
    case TryLoad(max, patience, got) =>
      if s.count > 0 then Goto(s, t, TryCas(max, patience, got, s.count)) else AfterTry(s, t, max, patience, got, 0)
    case TryCas(max, patience, got, seen) =>
      if s.count == seen && seen > 0 then
        AfterTry(s.(count := Left(seen, max)), t, max, patience, got, seen - Left(seen, max))
      else if s.count > 0 then Goto(s, t, TryCas(max, patience, got, s.count))
      else AfterTry(s, t, max, patience, got, 0)
    case Spin(max, patience, left) =>
      if s.count > 0 then Goto(s, t, SpinCas(max, patience, left, s.count))
      else Goto(s, t, SpinFrom(if left > 0 then left - 1 else 0, max, patience))
    case SpinCas(max, patience, left, seen) =>
      if s.count == seen && seen > 0 then
        Finish(s.(count := Left(seen, max)), t, max, patience, seen - Left(seen, max), false)
      else Goto(s, t, SpinFrom(if left > 0 then left - 1 else 0, max, patience))
    case Decrement(max, patience) =>
      var s' := s.(count := s.count - 1);
      if s.count > 0 then Acquired(s', t, max, patience)
      else Goto(s', t, if patience == Poll then Undo(max, patience) else Block(max, patience))
    case Block(max, patience) => Acquired(s.(kernel := s.kernel - 1), t, max, patience)
    case Undo(max, patience) =>
      Goto(s, t, if s.count >= 0 then UndoTry(max, patience) else UndoCas(max, patience, s.count))
    case UndoTry(max, patience) =>
      if s.kernel > 0 then Acquired(s.(kernel := s.kernel - 1), t, max, patience)
      else Goto(s, t, Undo(max, patience))
    case UndoCas(max, patience, seen) =>
      if s.count == seen then Finish(s.(count := s.count + 1), t, max, patience, 0, true)
      else Goto(s, t, Undo(max, patience))
    case Add(n) =>
      var toRelease := Min(0 - s.count, n);
      Goto(s.(count := s.count + n, signalled := s.signalled + n), t, if toRelease > 0 then Post(toRelease) else Idle)
    case Post(left) =>
      Goto(s.(kernel := s.kernel + 1), t, if left > 1 then Post(left - 1) else Idle)
  }

  // ----- what the threads hold

  /** The thread has been counted as a waiter, and has neither a token nor taken that back. */
  function Waits(pc: Pc): int
  {
    match pc
    case Block(_, _) => 1
    case Undo(_, _) => 1
    case UndoTry(_, _) => 1
    case UndoCas(_, _, _) => 1
    case _ => 0
  }

  /** Tokens the thread has, and will return with. */
  function Holds(pc: Pc): int
  {
    match pc
    case TryLoad(_, _, got) => got
    case TryCas(_, _, got, _) => got
    case _ => 0
  }

  /** Releases that the thread has computed but not yet posted. */
  function Posts(pc: Pc): int
  {
    match pc
    case Post(left) => left
    case _ => 0
  }

  function Waiters(s: State): int { Sum(s.pcs, Waits) }

  function Held(s: State): int { Sum(s.pcs, Holds) }

  function Unposted(s: State): int { Sum(s.pcs, Posts) }

  function Got(r: Return): int { r.got }

  /** Tokens handed out by waits that have returned. */
  function Granted(s: State): int { Sum(s.results, Got) }

  // ----- the invariant

  ghost predicate PcOk(pc: Pc)
  {
    match pc
    case TryLoad(_, _, got) => got <= 1
    case TryCas(_, _, got, seen) => got <= 1 && seen > 0
    case Spin(max, patience, left) => max > 0 && left > 0 && patience != Try
    case SpinCas(max, patience, left, seen) => max > 0 && left > 0 && seen > 0 && patience != Try
    case Decrement(max, patience) => max > 0 && patience != Try
    case Block(max, patience) => max > 0 && patience != Try
    case Undo(max, patience) => max > 0 && patience != Try
    case UndoTry(max, patience) => max > 0 && patience != Try
    case UndoCas(max, patience, seen) => max > 0 && seen < 0 && patience != Try
    case Post(left) => left > 0
    case _ => true
  }

  /** What a wait may return: an empty hand is for those that asked for nothing, only tried, or gave up. */
  predicate ReturnOk(r: Return)
  {
    && r.got <= r.max
    && (r.gaveUp ==> r.got == 0)
    && (r.got == 0 ==> r.max == 0 || r.patience == Try || r.gaveUp)
  }

  ghost predicate Inv(s: State, initialCount: nat)
  {
    && Waiters(s) == Max(0 - s.count, 0) + s.kernel + Unposted(s)
    && Granted(s) + Held(s) + Max(s.count, 0) + s.kernel + Unposted(s) == initialCount + s.signalled
    && (forall t :: 0 <= t < |s.pcs| ==> PcOk(s.pcs[t]))
    && (forall i :: 0 <= i < |s.results| ==> ReturnOk(s.results[i]))
  }

  lemma InitialInv(s: State, initialCount: nat)
    requires Initial(s, initialCount)
    ensures Inv(s, initialCount)
  {
    SumConstant(s.pcs, Waits, 0);
    SumConstant(s.pcs, Holds, 0);
    SumConstant(s.pcs, Posts, 0);
  }

  /** The three sums after thread `t` has moved. */
  lemma Moved(s: State, s': State, t: nat)
    requires t < |s.pcs| && t < |s'.pcs| && s'.pcs == s.pcs[t := s'.pcs[t]]
    ensures Waiters(s') == Waiters(s) - Waits(s.pcs[t]) + Waits(s'.pcs[t])
    ensures Held(s') == Held(s) - Holds(s.pcs[t]) + Holds(s'.pcs[t])
    ensures Unposted(s') == Unposted(s) - Posts(s.pcs[t]) + Posts(s'.pcs[t])
  {
    SumUpdate(s.pcs, t, s'.pcs[t], Waits);
    SumUpdate(s.pcs, t, s'.pcs[t], Holds);
    SumUpdate(s.pcs, t, s'.pcs[t], Posts);
  }

  /** What the step has returned to a caller: nothing, or a wait's result. */
  ghost predicate Returned(s: State, s': State, got: int)
  {
    || (s'.results == s.results && got == 0)
    || (|s'.results| > |s.results| && s'.results == s.results + [s'.results[|s.results|]]
        && ReturnOk(s'.results[|s.results|]) && got == s'.results[|s.results|].got)
  }

  /** One thread moves; the counter, the kernel and what is returned to a caller make up for what it held. */
  ghost predicate Balanced(s: State, s': State, t: nat, got: int)
    requires t < |s.pcs| && t < |s'.pcs|
  {
    var pc, pc' := s.pcs[t], s'.pcs[t];
    && s'.pcs == s.pcs[t := pc'] && PcOk(pc') && Returned(s, s', got)
    && Waits(pc') - Waits(pc) ==
       Max(0 - s'.count, 0) - Max(0 - s.count, 0) + s'.kernel - s.kernel + Posts(pc') - Posts(pc)
    && got + Holds(pc') - Holds(pc) + Max(s'.count, 0) - Max(s.count, 0) + s'.kernel - s.kernel
       + Posts(pc') - Posts(pc) == s'.signalled - s.signalled
  }

  lemma BalancedInv(s: State, s': State, t: nat, got: int, initialCount: nat)
    requires Inv(s, initialCount) && t < |s.pcs| && t < |s'.pcs| && Balanced(s, s', t, got)
    ensures Inv(s', initialCount)
  {
    Moved(s, s', t);
    if s'.results != s.results {
      SumAppend(s.results, s'.results[|s.results|], Got);
    }
  }

  /** What the wait or post of thread `t` returns in this step. */
  function GotIn(s: State, s': State): int
  {
    if |s'.results| > |s.results| then s'.results[|s.results|].got else 0
  }

  /** The steps of `tryWaitMany`, of the spinning loop, and of `signal`. */
  lemma TryBalanced(s: State, t: nat)
    requires t < |s.pcs| && PcOk(s.pcs[t])
    requires var pc := s.pcs[t]; pc.TryLoad? || pc.TryCas? || pc.Spin? || pc.SpinCas?
    ensures var s' := Move(s, t); Balanced(s, s', t, GotIn(s, s'))
  {}

  /** The steps of a thread that has been counted as a waiter, or is about to be. */
  lemma WaitBalanced(s: State, e: Event)
    requires Enabled(s, e) && PcOk(s.pcs[e.t]) && !e.Wait? && !e.Signal?
    requires var pc := s.pcs[e.t]; pc.Decrement? || pc.Block? || pc.Undo? || pc.UndoTry? || pc.UndoCas?
    ensures var s' := Next(s, e); Balanced(s, s', e.t, GotIn(s, s'))
  {}

  lemma StepBalanced(s: State, e: Event)
    requires Enabled(s, e) && PcOk(s.pcs[e.t])
    ensures var s' := Next(s, e); Balanced(s, s', e.t, GotIn(s, s'))
  {
    if !e.Wait? && !e.Signal? {
      match s.pcs[e.t]
      case TryLoad(_, _, _) => TryBalanced(s, e.t);
      case TryCas(_, _, _, _) => TryBalanced(s, e.t);
      case Spin(_, _, _) => TryBalanced(s, e.t);
      case SpinCas(_, _, _, _) => TryBalanced(s, e.t);
      case Decrement(_, _) => WaitBalanced(s, e);
      case Block(_, _) => WaitBalanced(s, e);
      case Undo(_, _) => WaitBalanced(s, e);
      case UndoTry(_, _) => WaitBalanced(s, e);
      case UndoCas(_, _, _) => WaitBalanced(s, e);
      case Add(_) =>
      case Post(_) =>
    }
  }

  /** Every step of every thread keeps the invariant. */
  lemma StepInv(s: State, e: Event, initialCount: nat)
    requires Inv(s, initialCount) && Enabled(s, e)
    ensures Inv(Next(s, e), initialCount)
  {
    StepBalanced(s, e);
    BalancedInv(s, Next(s, e), e.t, GotIn(s, Next(s, e)), initialCount);
  }

  // ----- runs

  /** An event that is not enabled when its turn comes changes nothing. */
  function Step(s: State, e: Event): State
  {
    if Enabled(s, e) then Next(s, e) else s
  }

  function Play(s: State, es: seq<Event>): State
  {
    Runs.Play(Step, s, es)
  }

  lemma PlayInv(s: State, es: seq<Event>, initialCount: nat)
    requires Inv(s, initialCount)
    ensures Inv(Play(s, es), initialCount)
  {
    forall s, e | Inv(s, initialCount) ensures Inv(Step(s, e), initialCount) {
      if Enabled(s, e) { StepInv(s, e, initialCount); }
    }
    Runs.PlayKeeps(Step, s => Inv(s, initialCount), s, es);
  }

  lemma NonNegative(s: State)
    requires forall t :: 0 <= t < |s.pcs| ==> PcOk(s.pcs[t])
    ensures Held(s) >= 0 && Unposted(s) >= 0 && Waiters(s) >= 0
    ensures forall t :: 0 <= t < |s.pcs| ==> Waits(s.pcs[t]) <= Waiters(s)
  {
    SumBounds(s.pcs, Holds);
    SumBounds(s.pcs, Posts);
    SumBounds(s.pcs, Waits);
  }

  /**
   In every interleaving of waits, timeouts and signals: no token is lost or made up, whether it has
   been granted, is held by a wait about to return, lies in the counter, or is on its way through the
   kernel; the kernel never holds a token that no waiter will take; and a waiter that sees a
   non-negative counter has a kernel token there or about to be posted.
   */
  lemma SemaphoreIsSafe(s0: State, es: seq<Event>, initialCount: nat)
    requires Initial(s0, initialCount)
    ensures var s := Play(s0, es);
      && Granted(s) + Held(s) + Max(s.count, 0) + s.kernel + Unposted(s) == initialCount + s.signalled
      && Granted(s) <= initialCount + s.signalled
      && s.kernel + Unposted(s) <= Waiters(s)
      && (Waiters(s) > 0 && s.count >= 0 ==> s.kernel + Unposted(s) >= 1)
      && forall i :: 0 <= i < |s.results| ==> ReturnOk(s.results[i])
  {
    InitialInv(s0, initialCount);
    PlayInv(s0, es, initialCount);
    NonNegative(Play(s0, es));
  }

  /** Nobody can move but by a new call, or by giving up: the others sleep in the kernel, which has no token. */
  ghost predicate Asleep(s: State)
  {
    && s.kernel == 0
    && forall t :: 0 <= t < |s.pcs| ==> s.pcs[t] == Idle || s.pcs[t].Block?
  }

  /** If anybody sleeps while nobody else can move, then every token ever signalled has been granted. */
  lemma SleepersMissNothing(s0: State, es: seq<Event>, initialCount: nat, t: nat)
    requires Initial(s0, initialCount)
    requires var s := Play(s0, es); Asleep(s) && t < |s.pcs| && s.pcs[t].Block?
    ensures var s := Play(s0, es);
      Granted(s) == initialCount + s.signalled && s.count == 0 - Waiters(s) && Waiters(s) > 0
  {
    InitialInv(s0, initialCount);
    PlayInv(s0, es, initialCount);
    var s := Play(s0, es);
    NonNegative(s);
    assert Waits(s.pcs[t]) == 1;
    SumConstant(s.pcs, Holds, 0);
    SumConstant(s.pcs, Posts, 0);
  }

  // ----- waits without a timeout

  predicate Undoing(pc: Pc)
  {
    pc.Undo? || pc.UndoTry? || pc.UndoCas?
  }

  /** No wait without a timeout has given up or is about to. */
  ghost predicate Firm(s: State)
  {
    && (forall t :: 0 <= t < |s.pcs| ==> Undoing(s.pcs[t]) ==> s.pcs[t].patience != Forever)
    && (forall i :: 0 <= i < |s.results| ==> s.results[i].gaveUp ==> s.results[i].patience != Forever)
  }

  /** In this run, the kernel only ends waits without a token when they have a timeout. */
  ghost predicate OnlyTimeouts(s: State, es: seq<Event>)
  {
    es != [] ==>
      var before := Play(s, es[..|es| - 1]);
      var e := es[|es| - 1];
      && OnlyTimeouts(s, es[..|es| - 1])
      && (e.GiveUp? && Enabled(before, e) ==> before.pcs[e.t].patience != Forever)
  }

  lemma MoveFirm(s: State, t: nat)
    requires t < |s.pcs| && (s.pcs[t].Block? ==> s.kernel > 0)
    requires Undoing(s.pcs[t]) ==> s.pcs[t].patience != Forever
    ensures var s' := Move(s, t);
      && (Undoing(s'.pcs[t]) ==> s'.pcs[t].patience != Forever)
      && (s'.results == s.results
          || exists r: Return :: s'.results == s.results + [r] && (r.gaveUp ==> r.patience != Forever))
  {
    var s' := Move(s, t);
    if s'.results != s.results {
      assert s'.results == s.results + [s'.results[|s.results|]];
    }
  }

  lemma StepFirm(s: State, e: Event)
    requires Firm(s) && Enabled(s, e)
    requires e.GiveUp? ==> s.pcs[e.t].patience != Forever
    ensures Firm(Next(s, e))
  {
    if e.Advance? { MoveFirm(s, e.t); }
    hide Move;
    MovesOne(s, e);
  }

  lemma MovesOne(s: State, e: Event)
    requires Enabled(s, e)
    ensures Next(s, e).pcs == s.pcs[e.t := Next(s, e).pcs[e.t]]
  {}

  /** No result without a timeout is empty-handed, as long as the kernel wait itself does not fail. */
  lemma {:induction false} ForeverIsFirm(s0: State, es: seq<Event>, initialCount: nat)
    requires Initial(s0, initialCount) && OnlyTimeouts(s0, es)
    ensures var s := Play(s0, es);
      Firm(s) && forall i :: 0 <= i < |s.results| && s.results[i].patience == Forever && s.results[i].max > 0 ==>
        1 <= s.results[i].got <= s.results[i].max
  {
    SemaphoreIsSafe(s0, es, initialCount);
    if es != [] {
      ForeverIsFirm(s0, es[..|es| - 1], initialCount);
      var before := Play(s0, es[..|es| - 1]);
      if Enabled(before, es[|es| - 1]) {
        StepFirm(before, es[|es| - 1]);
      }
    }
  }

  /** A wait that nobody interferes with takes greedily what the counter has. */
  lemma WaitAloneIsGreedy(s: State, t: nat, max: nat, patience: Patience)
    requires t < |s.pcs| && s.pcs[t] == Idle && s.count > 0 && max > 0
    ensures var s' := Play(s, [Wait(t, max, patience), Advance(t), Advance(t)]);
      && s'.results == s.results + [Return(t, max, patience, Min(s.count, max), false)]
      && s'.count == s.count - Min(s.count, max) && s'.kernel == s.kernel && s'.pcs == s.pcs
  {
    Runs.PlayThree(Step, s, Wait(t, max, patience), Advance(t), Advance(t));
    var s2 := Move(Goto(s, t, TryLoad(max, patience, 0)), t);
    assert s2.pcs == s.pcs[t := TryCas(max, patience, 0, s.count)];
    assert Move(s2, t).pcs == s.pcs;
  }

  /** With no token to be had, a spinning thread looks as often as it has looks left. */
  lemma {:induction false} SpinsOut(s: State, t: nat, left: nat, max: nat, patience: Patience)
    requires t < |s.pcs| && s.pcs[t] == SpinFrom(left, max, patience) && s.count <= 0
    ensures Play(s, Runs.Repeat(Advance(t), left)) == Goto(s, t, Decrement(max, patience))
    decreases left
  {
    hide Step;
    if left == 0 {
      assert Goto(s, t, Decrement(max, patience)) == s;
    } else {
      var s' := Step(s, Advance(t));
      SpinsOn(s, t, left, max, patience);
      SpinsOut(s', t, left - 1, max, patience);
      Runs.PlayFirst(Step, s, Runs.Repeat(Advance(t), left));
      assert Runs.Repeat(Advance(t), left)[1..] == Runs.Repeat(Advance(t), left - 1);
      assert Goto(s', t, Decrement(max, patience)) == Goto(s, t, Decrement(max, patience));
    }
  }

  lemma SpinsOn(s: State, t: nat, left: nat, max: nat, patience: Patience)
    requires t < |s.pcs| && left > 0 && s.pcs[t] == Spin(max, patience, left) && s.count <= 0
    ensures Step(s, Advance(t)) == Goto(s, t, SpinFrom(left - 1, max, patience))
  {}

  /**
   With no token to be had, a wait tries once, spins for as long as the semaphore was made to, and then counts
   itself as a waiter, and sleeps, or gives up at once if it must not.
   */
  lemma WaitGoesToSleep(s: State, t: nat, max: nat, patience: Patience)
    requires t < |s.pcs| && s.pcs[t] == Idle && s.count <= 0 && max > 0 && patience != Try
    ensures var es := [Wait(t, max, patience), Advance(t)] + Runs.Repeat(Advance(t), s.maxSpins) + [Advance(t)];
      Play(s, es) ==
        Goto(s, t, if patience == Poll then Undo(max, patience) else Block(max, patience)).(count := s.count - 1)
  {
    var first, spins := [Wait(t, max, patience), Advance(t)], Runs.Repeat(Advance(t), s.maxSpins);
    Runs.PlayFirst(Step, s, first);
    assert first[1..] == [Advance(t)];
    var s1 := Step(s, Wait(t, max, patience));
    Runs.PlayOne(Step, s1, Advance(t));
    var s2 := Step(s1, Advance(t));
    assert s2 == Goto(s, t, SpinFrom(s.maxSpins, max, patience));
    SpinsOut(s2, t, s.maxSpins, max, patience);
    Runs.PlayConcat(Step, s, first, spins);
    Runs.PlayConcat(Step, s, first + spins, [Advance(t)]);
    Runs.PlayOne(Step, Play(s, first + spins), Advance(t));
  }

  /** A token that comes while a thread spins is taken by its next look, with as many more as it may have. */
  lemma SpinTakesWhatComes(s: State, t: nat)
    requires t < |s.pcs| && s.pcs[t].Spin? && s.count > 0
    ensures var s', max := Play(s, [Advance(t), Advance(t)]), s.pcs[t].max;
      && s'.results == s.results + [Return(t, max, s.pcs[t].patience, Min(s.count, max), false)]
      && s'.count == s.count - Min(s.count, max) && s'.pcs == s.pcs[t := Idle]
  {
    hide Step;
    Runs.PlayFirst(Step, s, [Advance(t), Advance(t)]);
    assert [Advance(t), Advance(t)][1..] == [Advance(t)];
    Runs.PlayOne(Step, Step(s, Advance(t)), Advance(t));
    var Spin(max, patience, left) := s.pcs[t];
    SpinSees(s, t);
    TakesSeen(Step(s, Advance(t)), t);
    assert s.pcs[t := SpinCas(max, patience, left, s.count)][t := Idle] == s.pcs[t := Idle];
  }

  lemma SpinSees(s: State, t: nat)
    requires t < |s.pcs| && s.pcs[t].Spin? && s.count > 0
    ensures Step(s, Advance(t)) == Goto(s, t, SpinCas(s.pcs[t].max, s.pcs[t].patience, s.pcs[t].left, s.count))
  {}

  lemma TakesSeen(s: State, t: nat)
    requires t < |s.pcs| && s.pcs[t].SpinCas? && s.pcs[t].seen == s.count > 0
    ensures Step(s, Advance(t)) == s.(
      results := s.results + [Return(t, s.pcs[t].max, s.pcs[t].patience, Min(s.count, s.pcs[t].max), false)],
      count := s.count - Min(s.count, s.pcs[t].max), pcs := s.pcs[t := Idle])
  {}

  // ----- what the callers asked for

  /** A call of `wait` and its like, with the caller's arguments. */
  datatype Request = Request(max: nat, patience: Patience)

  /** The waits that thread `t` has begun in the run, in order. */
  function Requests(s0: State, es: seq<Event>, t: nat): seq<Request>
  {
    if es == [] then []
    else
      var e := es[|es| - 1];
      Requests(s0, es[..|es| - 1], t)
      + if e.Wait? && e.t == t && Enabled(Play(s0, es[..|es| - 1]), e) then [Request(e.max, e.patience)] else []
  }

  /** How many tokens the callers of `signal` have announced in the run. */
  function Announced(s0: State, es: seq<Event>): nat
  {
    if es == [] then 0
    else
      var e := es[|es| - 1];
      Announced(s0, es[..|es| - 1]) + if e.Signal? && Enabled(Play(s0, es[..|es| - 1]), e) then e.n else 0
  }

  /** The results of thread `t`, in order. */
  function ResultsOf(results: seq<Return>, t: nat): seq<Return>
  {
    if results == [] then []
    else
      var r := results[|results| - 1];
      ResultsOf(results[..|results| - 1], t) + if r.t == t then [r] else []
  }

  function Term(r: Return): Request
  {
    Request(r.max, r.patience)
  }

  function Terms(results: seq<Return>): seq<Request>
  {
    seq(|results|, i requires 0 <= i < |results| => Term(results[i]))
  }

  /** What the wait that the thread is in was asked for; what it has got already is part of that. */
  function Pending(pc: Pc): seq<Request>
  {
    match pc
    case Idle => []
    case Add(_) => []
    case Post(_) => []
    case TryLoad(max, patience, got) => [Request(got + max, patience)]
    case TryCas(max, patience, got, _) => [Request(got + max, patience)]
    case _ => [Request(pc.max, pc.patience)]
  }

  function Announcing(pc: Pc): int
  {
    if pc.Add? then pc.n else 0
  }

  /** A step ends a wait with the terms that it had, or goes on with them. */
  ghost predicate KeepsTerms(s: State, s': State, t: nat)
    requires t < |s.pcs| && t < |s'.pcs|
  {
    || (s'.results == s.results && Pending(s'.pcs[t]) == Pending(s.pcs[t]))
    || (s'.pcs[t] == Idle && |s'.results| == |s.results| + 1 && s'.results[..|s.results|] == s.results
        && s'.results[|s.results|].t == t && Pending(s.pcs[t]) == [Term(s'.results[|s.results|])])
  }

  lemma MoveKeepsTerms(s: State, e: Event)
    requires Enabled(s, e) && PcOk(s.pcs[e.t]) && !e.Wait? && !e.Signal?
    ensures var s' := Next(s, e); s'.pcs == s.pcs[e.t := s'.pcs[e.t]] && KeepsTerms(s, s', e.t)
    ensures var s' := Next(s, e); s'.signalled + Announcing(s'.pcs[e.t]) == s.signalled + Announcing(s.pcs[e.t])
  {
    var s' := Next(s, e);
    if s'.results != s.results { assert s'.results == s.results + [s'.results[|s.results|]]; }
  }

  /** The waits that a thread has begun are those that have returned to it, and the one that it is in. */
  lemma {:induction false} TermsKept(s0: State, es: seq<Event>, initialCount: nat, t: nat)
    requires Initial(s0, initialCount) && t < |s0.pcs|
    ensures var s := Play(s0, es);
      |s.pcs| == |s0.pcs| && Requests(s0, es, t) == Terms(ResultsOf(s.results, t)) + Pending(s.pcs[t])
  {
    hide Next, Terms;
    if es == [] {
      NoTerms();
    } else {
      var front, e := es[..|es| - 1], es[|es| - 1];
      var s := Play(s0, front);
      TermsKept(s0, front, initialCount, t);
      if Enabled(s, e) {
        if e.Wait? || e.Signal? {
          Begun(s, e);
        } else {
          InitialInv(s0, initialCount);
          PlayInv(s0, front, initialCount);
          MoveKeepsTerms(s, e);
          OneMoreResult(s.results, Next(s, e).results, e.t, t);
        }
      }
    }
  }

  lemma NoTerms()
    ensures Terms([]) == []
  {}

  lemma Begun(s: State, e: Event)
    requires Enabled(s, e) && (e.Wait? || e.Signal?)
    ensures var s' := Next(s, e);
      && s'.results == s.results && s'.signalled == s.signalled && s'.pcs == s.pcs[e.t := s'.pcs[e.t]]
      && Pending(s.pcs[e.t]) == [] && Announcing(s.pcs[e.t]) == 0
      && Pending(s'.pcs[e.t]) == (if e.Wait? then [Request(e.max, e.patience)] else [])
      && Announcing(s'.pcs[e.t]) == (if e.Signal? then e.n else 0)
  {}

  /** The results have become one more, that of thread `u`, or not. */
  ghost predicate Extends(results: seq<Return>, results': seq<Return>, u: nat)
  {
    || results' == results
    || (|results'| == |results| + 1 && results'[..|results|] == results && results'[|results|].t == u)
  }

  lemma OneMoreResult(results: seq<Return>, results': seq<Return>, u: nat, t: nat)
    requires Extends(results, results', u)
    ensures var more := if results' != results && u == t then [results'[|results|]] else [];
      && ResultsOf(results', t) == ResultsOf(results, t) + more
      && Terms(ResultsOf(results', t)) == Terms(ResultsOf(results, t)) + Terms(more)
      && Terms(more) == (if more == [] then [] else [Term(more[0])])
  {}

  /**
   In every run: the results of a thread's waits carry, in order, the maxima and the patience that its
   callers gave, and at most the last of its waits is still on; no result has more tokens than its caller
   asked for, none is empty but for the reasons in `ReturnOk`; and what has been signalled is what the
   callers of `signal` announced, but for what they have not yet added.
   */
  lemma WaitsKeepTheirTerms(s0: State, es: seq<Event>, initialCount: nat, t: nat)
    requires Initial(s0, initialCount) && t < |s0.pcs|
    ensures var s := Play(s0, es);
      var asked, got := Requests(s0, es, t), ResultsOf(s.results, t);
      && |s.pcs| == |s0.pcs| && |got| <= |asked| <= |got| + 1
      && (|asked| == |got| + 1 <==> s.pcs[t] != Idle && !s.pcs[t].Add? && !s.pcs[t].Post?)
      && (forall k :: 0 <= k < |got| ==> Request(got[k].max, got[k].patience) == asked[k])
      && (forall k :: 0 <= k < |got| ==> ReturnOk(got[k]) && got[k].got <= asked[k].max)
      && (|asked| > |got| ==> [asked[|got|]] == Pending(s.pcs[t]))
    ensures var s := Play(s0, es); s.signalled + Sum(s.pcs, Announcing) == Announced(s0, es)
  {
    hide Next, Play, Requests, ResultsOf, Announced, Granted, Held, Unposted, Waiters;
    TermsKept(s0, es, initialCount, t);
    AnnouncedKept(s0, es, initialCount);
    SemaphoreIsSafe(s0, es, initialCount);
    ResultsOk(Play(s0, es).results, t);
  }

  lemma {:induction false} ResultsOk(results: seq<Return>, t: nat)
    requires forall i :: 0 <= i < |results| ==> ReturnOk(results[i])
    ensures forall k :: 0 <= k < |ResultsOf(results, t)| ==> ReturnOk(ResultsOf(results, t)[k])
  {
    if results != [] {
      ResultsOk(results[..|results| - 1], t);
    }
  }

  /**
   As long as the kernel wait itself does not fail, a wait without a timeout returns with a token, and with
   at most the number that its caller asked for.
   */
  lemma WaitForeverGetsAToken(s0: State, es: seq<Event>, initialCount: nat, t: nat, k: nat)
    requires Initial(s0, initialCount) && OnlyTimeouts(s0, es) && t < |s0.pcs|
    requires k < |ResultsOf(Play(s0, es).results, t)|
    ensures var asked, got := Requests(s0, es, t), ResultsOf(Play(s0, es).results, t);
      k < |asked| && (asked[k].patience == Forever && asked[k].max > 0 ==> 1 <= got[k].got <= asked[k].max)
  {
    hide Play, Requests, ResultsOf, Announced, OnlyTimeouts, Firm;
    WaitsKeepTheirTerms(s0, es, initialCount, t);
    ForeverIsFirm(s0, es, initialCount);
    var i := AmongResults(Play(s0, es).results, t, k);
  }

  lemma {:induction false} AmongResults(results: seq<Return>, t: nat, k: nat) returns (i: nat)
    requires k < |ResultsOf(results, t)|
    ensures i < |results| && results[i] == ResultsOf(results, t)[k]
  {
    var front := results[..|results| - 1];
    if k < |ResultsOf(front, t)| { i := AmongResults(front, t, k); } else { i := |results| - 1; }
  }

  lemma {:induction false} AnnouncedKept(s0: State, es: seq<Event>, initialCount: nat)
    requires Initial(s0, initialCount)
    ensures var s := Play(s0, es); s.signalled + Sum(s.pcs, Announcing) == Announced(s0, es)
  {
    hide Next;
    if es == [] {
      SumConstant(s0.pcs, Announcing, 0);
    } else {
      var front, e := es[..|es| - 1], es[|es| - 1];
      var s := Play(s0, front);
      AnnouncedKept(s0, front, initialCount);
      if Enabled(s, e) {
        InitialInv(s0, initialCount);
        PlayInv(s0, front, initialCount);
        if e.Wait? || e.Signal? { Begun(s, e); } else { MoveKeepsTerms(s, e); }
        SumUpdate(s.pcs, e.t, Next(s, e).pcs[e.t], Announcing);
      }
    }
  }

  /**
   A wait returns with less than its maximum, or with nothing, only when the counter has no token, as the
   wait finds it or leaves it.
   */
  lemma ShortMeansNoneLeft(s: State, e: Event)
    requires Enabled(s, e) && PcOk(s.pcs[e.t]) && |Next(s, e).results| > |s.results|
    ensures var s' := Next(s, e);
      var r := s'.results[|s.results|];
      r.got < r.max ==> s.count <= 0 || s'.count == 0
  {}

  /** A wait begins to give up only when its patience allows no other way, or the kernel wait has ended. */
  lemma GivesUpForAReason(s: State, e: Event)
    requires Enabled(s, e) && PcOk(s.pcs[e.t]) && !e.Wait? && !e.Signal?
    ensures var s', pc := Next(s, e), s.pcs[e.t];
      && (Undoing(s'.pcs[e.t]) ==> Undoing(pc) || e.GiveUp? || s'.pcs[e.t].patience == Poll)
      && (|s'.results| > |s.results| && s'.results[|s.results|].gaveUp ==> Undoing(pc))
  {}

  // ----- a thread alone ends its call, or waits for a token

  /** The thread sleeps with no token in the kernel, or polls for one that is not there, though the counter has it. */
  predicate AwaitsToken(s: State, t: nat)
    requires t < |s.pcs|
  {
    s.kernel == 0 && (s.pcs[t].Block? || (s.pcs[t].UndoTry? && s.count >= 0))
  }

  predicate EndsOrAwaits(s: State, t: nat)
  {
    t < |s.pcs| && (s.pcs[t] == Idle || AwaitsToken(s, t))
  }

  /** How many operations thread `t` has before it at most, if no other thread moves. */
  function Remaining(s: State, t: nat): nat
    requires t < |s.pcs|
  {
    match s.pcs[t]
    case Idle => 0
    case TryLoad(_, _, got) => if got > 0 then 2 else 8 + 2 * s.maxSpins
    case TryCas(_, _, got, seen) => if s.count == seen then 1 else if got > 0 then 2 else 8 + 2 * s.maxSpins
    case Spin(_, _, left) => 6 + 2 * left
    case SpinCas(_, _, left, _) => 5 + 2 * left
    case Decrement(_, _) => 6
    case Block(_, _) => 3
    case Undo(_, _) => if s.count >= 0 then 4 else 2
    case UndoTry(_, _) => 3
    case UndoCas(_, _, seen) => if s.count == seen then 1 else 5
    case Add(n) => n + 1
    case Post(left) => left
  }

  lemma RemainingFalls(s: State, t: nat)
    requires t < |s.pcs| && PcOk(s.pcs[t]) && !EndsOrAwaits(s, t)
    ensures Enabled(s, Advance(t)) && t < |Move(s, t).pcs| && Remaining(Move(s, t), t) < Remaining(s, t)
  {}

  /**
   Whatever other threads were doing when they stopped, in any state that a run can reach, a thread that runs
   on alone ends its call, or comes to wait for a token: then the counter has none, or another thread is
   about to post one.
   */
  lemma CallsEndAlone(s0: State, es: seq<Event>, initialCount: nat, t: nat)
    requires Initial(s0, initialCount) && t < |Play(s0, es).pcs|
    ensures var s := Play(s0, es);
      Runs.Ends(Step, s, Advance(t), Remaining(s, t),
                (s: State) => EndsOrAwaits(s, t) && (s.pcs[t] == Idle || s.count < 0 || Unposted(s) > 0))
  {
    hide Remaining, Move, Inv;
    InitialInv(s0, initialCount);
    PlayInv(s0, es, initialCount);
    var s := Play(s0, es);
    var inv := (s: State) => Inv(s, initialCount) && t < |s.pcs|;
    var left := (s: State) => if t < |s.pcs| then Remaining(s, t) else 0;
    var done := (s: State) => EndsOrAwaits(s, t) && (s.pcs[t] == Idle || s.count < 0 || Unposted(s) > 0);
    forall s | inv(s) && !done(s) ensures inv(Step(s, Advance(t))) && left(Step(s, Advance(t))) < left(s) {
      AwaitedIsComing(s, initialCount, t);
      RemainingFalls(s, t);
      StepInv(s, Advance(t), initialCount);
    }
    Runs.FallingEnds(Step, s, Advance(t), inv, left, done);
  }

  lemma AwaitedIsComing(s: State, initialCount: nat, t: nat)
    requires Inv(s, initialCount) && t < |s.pcs|
    ensures PcOk(s.pcs[t]) && (AwaitsToken(s, t) ==> s.count < 0 || Unposted(s) > 0)
  {
    NonNegative(s);
    assert AwaitsToken(s, t) ==> Waits(s.pcs[t]) == 1;
  }

  /** The thread gives up, or has got a token after all. */
  predicate Leaving(pc: Pc)
  {
    pc == Idle || Undoing(pc) || ((pc.TryLoad? || pc.TryCas?) && pc.got > 0)
  }

  lemma LeavingGoesOn(s: State, t: nat)
    requires t < |s.pcs| && Leaving(s.pcs[t]) && s.pcs[t] != Idle && Enabled(s, Advance(t))
    ensures t < |Move(s, t).pcs| && Leaving(Move(s, t).pcs[t])
  {}

  /**
   When the kernel ends a wait without a token, and no other thread moves, the wait is over after at most
   four more operations, unless a token is on its way to it.
   */
  lemma TimeOutEndsWait(s0: State, es: seq<Event>, initialCount: nat, t: nat)
    requires Initial(s0, initialCount) && Enabled(Play(s0, es), GiveUp(t))
    ensures Runs.Ends(Step, Next(Play(s0, es), GiveUp(t)), Advance(t), 4,
                      (s: State) => t < |s.pcs| && (s.pcs[t] == Idle || Unposted(s) > 0))
  {
    hide Remaining, Move, Inv;
    InitialInv(s0, initialCount);
    PlayInv(s0, es, initialCount);
    StepInv(Play(s0, es), GiveUp(t), initialCount);
    var s := Next(Play(s0, es), GiveUp(t));
    var inv := (s: State) => Inv(s, initialCount) && t < |s.pcs| && Leaving(s.pcs[t]);
    var left := (s: State) => if t < |s.pcs| then Remaining(s, t) else 0;
    var done := (s: State) => t < |s.pcs| && (s.pcs[t] == Idle || Unposted(s) > 0);
    forall s | inv(s) && !done(s) ensures inv(Step(s, Advance(t))) && left(Step(s, Advance(t))) < left(s) {
      AwaitedIsComing(s, initialCount, t);
      RemainingFalls(s, t);
      LeavingGoesOn(s, t);
      StepInv(s, Advance(t), initialCount);
    }
    AtMostFour(s, t);
    Runs.FallingEnds(Step, s, Advance(t), inv, left, done);
  }

  lemma AtMostFour(s: State, t: nat)
    requires t < |s.pcs| && s.pcs[t].Undo?
    ensures Remaining(s, t) <= 4
  {}
}
