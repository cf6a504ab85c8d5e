/**
 The dequeue counters as the machine keeps them, in unsigned words, and their refinement to the
 unbounded counters of module OptimisticDequeue.
 */
module WrappedDequeue {
  import opened Counting
  import opened CircularIndex
  import opened OptimisticDequeue
  import Runs

  datatype Words = Words(tail: nat, head: nat, optimistic: nat, overcommit: nat, pcs: seq<Pc>)

  predicate WordsEnabled(w: Words, e: Event)
  {
    match e
    case Publish(_) => true
    case Begin(c, _) => c < |w.pcs| && w.pcs[c] == Idle
    case Advance(c) => c < |w.pcs| && w.pcs[c] != Idle
  }

  /** The step as the source computes it: every sum, difference and comparison is on words. */
  function WordsNext(w: Words, e: Event, half: int): Words
    requires half > 0 && WordsEnabled(w, e)
  {
    match e
    case Publish(count) => w.(tail := Wrap(w.tail + count, half))
    case Begin(c, request) => w.(pcs := w.pcs[c := LoadOvercommit(request, w.tail)])
    case Advance(c) =>
      match w.pcs[c]
      case Idle => w
      case LoadOvercommit(request, tail) =>
        w.(pcs := w.pcs[c := LoadOptimistic(request, tail, w.overcommit)])
      case LoadOptimistic(Take, tail, overcommit) =>
        if CircularLessThan(Wrap(w.optimistic - overcommit, half), tail, half) then
          w.(pcs := w.pcs[c := DrawTickets(1, overcommit)])
        else
          w.(pcs := w.pcs[c := Idle])
      case LoadOptimistic(TakeUpTo(max), tail, overcommit) =>
        var desired := Wrap(tail - Wrap(w.optimistic - overcommit, half), half);
        if CircularLessThan(0, desired, half) then
          w.(pcs := w.pcs[c := DrawTickets(Min(desired, max), overcommit)])
        else
          w.(pcs := w.pcs[c := Idle])
      case DrawTickets(want, overcommit) =>
        w.(optimistic := Wrap(w.optimistic + want, half),
           pcs := w.pcs[c := ReloadTail(want, overcommit, w.optimistic)])
      case ReloadTail(want, overcommit, mine) =>
        // dequeue tests circular_less_than(mine - overcommit, tail), which by SameTest is the test below
        var actual := Wrap(w.tail - Wrap(mine - overcommit, half), half);
        var some := CircularLessThan(0, actual, half);
        var won := if some then Min(want, actual) else 0;
        w.(pcs := w.pcs[c := if some && won == want then ClaimHead(won) else Repair(want - won, won)])
      case Repair(lost, won) =>
        w.(overcommit := Wrap(w.overcommit + lost, half),
           pcs := w.pcs[c := if won > 0 then ClaimHead(won) else Idle])
      case ClaimHead(won) =>
        w.(head := Wrap(w.head + won, half), pcs := w.pcs[c := Idle])
  }

  /** The test of the single-item dequeue and that of the bulk dequeue agree. */
  lemma SameTest(a: int, tail: nat, half: int)
    requires half > 0
    ensures CircularLessThan(Wrap(a, half), tail, half)
       <==> CircularLessThan(0, Wrap(tail - Wrap(a, half), half), half)
  {
    WrapOfDifference(0, tail - Wrap(a, half), half);
  }

  function WrapPc(pc: Pc, half: int): Pc
    requires half > 0
  {
    match pc
    case LoadOvercommit(request, tail) => LoadOvercommit(request, Wrap(tail, half))
    case LoadOptimistic(request, tail, overcommit) =>
      LoadOptimistic(request, Wrap(tail, half), Wrap(overcommit, half))
    case DrawTickets(want, overcommit) => DrawTickets(want, Wrap(overcommit, half))
    case ReloadTail(want, overcommit, mine) => ReloadTail(want, Wrap(overcommit, half), Wrap(mine, half))
    case _ => pc
  }

  function WrapPcs(pcs: seq<Pc>, half: int): seq<Pc>
    requires half > 0
  {
    seq(|pcs|, c requires 0 <= c < |pcs| => WrapPc(pcs[c], half))
  }

  /** The words that stand for an unbounded state. */
  function WordsOf(s: State, half: int): Words
    requires half > 0
  {
    Words(Wrap(s.tail, half), Wrap(s.head, half), Wrap(s.optimistic, half), Wrap(s.overcommit, half),
          WrapPcs(s.pcs, half))
  }

  /** The two counters that the step compares are less than half the word range apart. */
  predicate InWindow(s: State, e: Event, half: int)
  {
    e.Advance? && e.c < |s.pcs| ==>
      match s.pcs[e.c]
      case LoadOptimistic(_, tail, overcommit) => -half <= tail - (s.optimistic - overcommit) < half
      case ReloadTail(_, overcommit, mine) => -half <= s.tail - (mine - overcommit) < half
      case _ => true
  }

  lemma UpdateCommutes(pcs: seq<Pc>, c: nat, pc: Pc, half: int)
    requires half > 0 && c < |pcs|
    ensures WrapPcs(pcs[c := pc], half) == WrapPcs(pcs, half)[c := WrapPc(pc, half)]
  {}

  /** The test of a word against zero recovers the sign of a small value. */
  lemma SignOnWords(d: int, half: int)
    requires half > 0 && -half <= d < half
    ensures CircularLessThan(0, Wrap(d, half), half) <==> d > 0
    ensures d > 0 ==> Wrap(d, half) == d
  {
    RemainderOfSum(d, 0, 2 * half);
    assert Wrap(0 - Wrap(d, half), half) == Wrap(0 - d, half);
    WrapOfSmall(d, half);
    WrapOfSmall(0 - d, half);
  }

  /** How many items seem available, computed on words. */
  lemma AvailableOnWords(tail: int, a: int, b: int, half: int)
    requires half > 0 && -half <= tail - (a - b) < half
    ensures var count := Wrap(Wrap(tail, half) - Wrap(Wrap(a, half) - Wrap(b, half), half), half);
      && (CircularLessThan(0, count, half) <==> tail - (a - b) > 0)
      && (tail - (a - b) > 0 ==> count == tail - (a - b))
  {
    WrapOfDifference(a, b, half);
    WrapOfDifference(tail, a - b, half);
    SignOnWords(tail - (a - b), half);
  }

  /** What the step of consumer `c` does on words, apart from its program counter. */
  lemma AdvanceRefines(s: State, c: nat, half: int)
    requires half > 0 && Enabled(s, Advance(c)) && InWindow(s, Advance(c), half)
    ensures WordsEnabled(WordsOf(s, half), Advance(c))
    ensures WordsNext(WordsOf(s, half), Advance(c), half) == WordsOf(Next(s, Advance(c)), half)
  {
    hide Wrap, CircularLessThan, WordsNext, Next;
    assert WordsOf(s, half).pcs[c] == WrapPc(s.pcs[c], half);
    match s.pcs[c]
    case LoadOvercommit(_, _) => LoadRefines(s, c, half);
    case LoadOptimistic(_, _, _) => TryRefines(s, c, half);
    case DrawTickets(_, _) => DrawRefines(s, c, half);
    case ReloadTail(_, _, _) => ReloadRefines(s, c, half);
    case Repair(_, _) => RepairRefines(s, c, half);
    case ClaimHead(_) => ClaimRefines(s, c, half);
  }

  lemma LoadRefines(s: State, c: nat, half: int)
    requires half > 0 && Enabled(s, Advance(c)) && s.pcs[c].LoadOvercommit?
    requires WordsEnabled(WordsOf(s, half), Advance(c))
    ensures WordsNext(WordsOf(s, half), Advance(c), half) == WordsOf(Next(s, Advance(c)), half)
  {
    hide Wrap, CircularLessThan;
    UpdateCommutes(s.pcs, c, Next(s, Advance(c)).pcs[c], half);
  }

  lemma TryRefines(s: State, c: nat, half: int)
    requires half > 0 && Enabled(s, Advance(c)) && InWindow(s, Advance(c), half) && s.pcs[c].LoadOptimistic?
    requires WordsEnabled(WordsOf(s, half), Advance(c))
    ensures WordsNext(WordsOf(s, half), Advance(c), half) == WordsOf(Next(s, Advance(c)), half)
  {
    hide Wrap, CircularLessThan;
    var w := WordsOf(s, half);
    var LoadOptimistic(_, tail, overcommit) := s.pcs[c];
    UpdateCommutes(s.pcs, c, Next(s, Advance(c)).pcs[c], half);
    AvailableOnWords(tail, s.optimistic, overcommit, half);
    SameTest(w.optimistic - Wrap(overcommit, half), Wrap(tail, half), half);
  }

  lemma DrawRefines(s: State, c: nat, half: int)
    requires half > 0 && Enabled(s, Advance(c)) && s.pcs[c].DrawTickets?
    requires WordsEnabled(WordsOf(s, half), Advance(c))
    ensures WordsNext(WordsOf(s, half), Advance(c), half) == WordsOf(Next(s, Advance(c)), half)
  {
    hide Wrap, CircularLessThan;
    UpdateCommutes(s.pcs, c, Next(s, Advance(c)).pcs[c], half);
    WrapOfDifference(s.optimistic, s.pcs[c].want, half);
  }

  lemma ReloadRefines(s: State, c: nat, half: int)
    requires half > 0 && Enabled(s, Advance(c)) && InWindow(s, Advance(c), half) && s.pcs[c].ReloadTail?
    requires WordsEnabled(WordsOf(s, half), Advance(c))
    ensures WordsNext(WordsOf(s, half), Advance(c), half) == WordsOf(Next(s, Advance(c)), half)
  {
    hide Wrap, CircularLessThan;
    UpdateCommutes(s.pcs, c, Next(s, Advance(c)).pcs[c], half);
    AvailableOnWords(s.tail, s.pcs[c].mine, s.pcs[c].overcommit, half);
  }

  lemma RepairRefines(s: State, c: nat, half: int)
    requires half > 0 && Enabled(s, Advance(c)) && s.pcs[c].Repair?
    requires WordsEnabled(WordsOf(s, half), Advance(c))
    ensures WordsNext(WordsOf(s, half), Advance(c), half) == WordsOf(Next(s, Advance(c)), half)
  {
    hide Wrap, CircularLessThan;
    UpdateCommutes(s.pcs, c, Next(s, Advance(c)).pcs[c], half);
    WrapOfDifference(s.overcommit, s.pcs[c].lost, half);
  }

  lemma ClaimRefines(s: State, c: nat, half: int)
    requires half > 0 && Enabled(s, Advance(c)) && s.pcs[c].ClaimHead?
    requires WordsEnabled(WordsOf(s, half), Advance(c))
    ensures WordsNext(WordsOf(s, half), Advance(c), half) == WordsOf(Next(s, Advance(c)), half)
  {
    hide Wrap, CircularLessThan;
    UpdateCommutes(s.pcs, c, Next(s, Advance(c)).pcs[c], half);
    WrapOfDifference(s.head, s.pcs[c].won, half);
  }

  /** A step whose comparison is in the window does on words what the unbounded step does. */
  lemma StepRefines(s: State, e: Event, half: int)
    requires half > 0 && Enabled(s, e) && InWindow(s, e, half)
    ensures WordsEnabled(WordsOf(s, half), e)
    ensures WordsNext(WordsOf(s, half), e, half) == WordsOf(Next(s, e), half)
  {
    hide Wrap, CircularLessThan;
    match e
    case Publish(count) => WrapOfDifference(s.tail, count, half);
    case Begin(c, request) => UpdateCommutes(s.pcs, c, LoadOvercommit(request, s.tail), half);
    case Advance(c) => AdvanceRefines(s, c, half);
  }

  function WordsStep(half: int): (Words, Event) -> Words
    requires half > 0
  {
    (w, e) => if WordsEnabled(w, e) then WordsNext(w, e, half) else w
  }

  function WordsPlay(w: Words, es: seq<Event>, half: int): Words
    requires half > 0
  {
    Runs.Play(WordsStep(half), w, es)
  }

  /** Every comparison made along the run is between counters less than half the word range apart. */
  ghost predicate RunInWindow(s: State, es: seq<Event>, half: int)
  {
    es == [] ||
    (RunInWindow(s, es[..|es| - 1], half) && InWindow(Play(s, es[..|es| - 1]), es[|es| - 1], half))
  }

  /**
   For words of any width: along a run in which compared counters stay within half the word range,
   the machine's counters are at every moment the words of the unbounded ones, however often each
   of them has wrapped around.
   */
  lemma {:induction false} RunRefines(s: State, es: seq<Event>, half: int)
    requires half > 0 && RunInWindow(s, es, half)
    ensures WordsPlay(WordsOf(s, half), es, half) == WordsOf(Play(s, es), half)
  {
    if es != [] {
      var front, e := es[..|es| - 1], es[|es| - 1];
      RunRefines(s, front, half);
      if Enabled(Play(s, front), e) {
        StepRefines(Play(s, front), e, half);
      }
    }
  }

  /** On words as well, `size_approx` reports at any moment of such a run exactly what is queued. */
  lemma SizeOfWords(init: State, es: seq<Event>, half: int)
    requires half > 0 && Initial(init) && RunInWindow(init, es, half)
    requires var s := Play(init, es); s.tail - s.head < half
    ensures var w, s := WordsPlay(WordsOf(init, half), es, half), Play(init, es);
      SizeApprox(w.tail, w.head, half) == s.tail - s.head
  {
    RunRefines(init, es, half);
    DequeueIsSafe(init, es);
    SizeApproxIsExact(Play(init, es).tail, Play(init, es).head, half);
  }
}
