/**
 What the workers and threads of the work-stealing pool get done: a search for tasks finds one, a worker
 that runs alone empties the deques, every call goes on to its end, and the completion signal and the
 count of cleared tasks tell the truth.
 */
module WorkStealingProgress {
  import opened Counting
  import opened Wrappers
  import opened CircularIndex
  import opened Sequences
  import opened StealingQueue
  import opened WorkStealingPool
  import Runs

  // ----- a search finds a task

  /** The deque that worker `i` looks into when it has passed `m` others. */
  function Looked(s: State, i: nat, m: nat): nat
    requires i < |s.workers|
  {
    (i + m) % |s.workers|
  }

  /** The deques that worker `i` has passed are empty, its own first. */
  ghost predicate PassedEmpty(s: State, i: nat, j: nat)
  {
    && Shape(s) && i < |s.workers|
    && forall m :: 0 <= m < j ==> Looked(s, i, m) < |s.deques| && s.deques[Looked(s, i, m)] == []
  }

  /** From one's own deque on, all deques are passed. */
  lemma Surrounds(s: State, i: nat, k: nat) returns (m: nat)
    requires Shape(s) && i < |s.workers| && k < |s.workers|
    ensures m < |s.workers| && Looked(s, i, m) == k
  {
    var n := |s.workers|;
    m := if k >= i then k - i else k - i + n;
    RemainderIsUnique(i + m, if k >= i then 0 else 1, k, n);
  }

  /** Worker `i` searches, and has passed empty deques only. */
  ghost predicate Searching(s: State, i: nat, deques: seq<seq<nat>>)
  {
    && Shape(s) && i < |s.workers| && s.deques == deques
    && match s.workers[i]
       case Pop => true
       case Steal(j) => 1 <= j < |s.workers| && PassedEmpty(s, i, j)
       case _ => false
  }

  predicate HasTaken(s: State, i: nat)
  {
    i < |s.workers| && s.workers[i].Took?
  }

  function SearchLeft(s: State, i: nat): nat
  {
    if i < |s.workers| && s.workers[i].Pop? then |s.workers|
    else if i < |s.workers| && s.workers[i].Steal? && s.workers[i].j < |s.workers| then |s.workers| - s.workers[i].j
    else 0
  }

  lemma SearchStep(s: State, i: nat, deques: seq<seq<nat>>, k: nat)
    requires Searching(s, i, deques) && k < |deques| && deques[k] != []
    ensures var s' := Step(s, Work(i));
      && |s'.workers| == |s.workers|
      && (HasTaken(s', i) || (Searching(s', i, deques) && SearchLeft(s', i) < SearchLeft(s, i)))
  {
    hide Looked;
    var m := Surrounds(s, i, k);
    var s' := Step(s, Work(i));
    assert s' == NextOfWorker(s, i);
    if s.workers[i].Pop? {
      OwnIsFirst(s, i);
    } else {
      LookedIs(s, i, s.workers[i].j);
    }
    assert forall m :: Looked(s', i, m) == Looked(s, i, m) by { SameLooks(s, s', i); }
  }

  lemma OwnIsFirst(s: State, i: nat)
    requires i < |s.workers|
    ensures Looked(s, i, 0) == i
  {
    RemainderIsUnique(i, 0, i, |s.workers|);
  }

  lemma LookedIs(s: State, i: nat, j: nat)
    requires i < |s.workers|
    ensures Looked(s, i, j) == (i + j) % |s.workers| < |s.workers|
  {}

  lemma SameLooks(s: State, s': State, i: nat)
    requires i < |s.workers| && |s'.workers| == |s.workers|
    ensures forall m: nat :: Looked(s', i, m) == Looked(s, i, m)
  {}

  /**
   When there is a task in any deque, its own or another's, a worker that begins a search and is not
   interfered with has taken one after at most as many looks as there are workers.
   */
  lemma SearchFinds(s: State, i: nat, k: nat)
    requires Shape(s) && i < |s.workers| && s.workers[i] == Pop && k < |s.deques| && s.deques[k] != []
    ensures Runs.Ends(Step, s, Work(i), |s.workers| + 1, (s: State) => HasTaken(s, i))
  {
    var deques, n := s.deques, |s.workers|;
    var inv := (s: State) => |s.workers| == n && (HasTaken(s, i) || Searching(s, i, deques));
    var left := (s: State) => if HasTaken(s, i) then 0 else SearchLeft(s, i) + 1;
    var done := (s: State) => HasTaken(s, i);
    forall s | inv(s) && !done(s) ensures inv(Step(s, Work(i))) && left(Step(s, Work(i))) < left(s) {
      SearchStep(s, i, deques, k);
    }
    Runs.FallingEnds(Step, s, Work(i), inv, left, done);
  }

  // ----- a worker alone empties all deques

  /** No deque has a task, and the worker has none that it has not invoked. */
  ghost predicate AllDone(s: State, i: nat)
  {
    Queued(s) == 0 && i < |s.workers| && WorkerBag(s.workers[i]) == multiset{}
  }

  /** The worker is between being signalled and having looked for tasks in vain. */
  predicate Active(s: State, i: nat)
  {
    i < |s.workers| && i < |s.signals| && (Draining(s.workers[i]) || (s.workers[i].Acquire? && s.signals[i]))
  }

  /** How many operations the worker has before it at most until it takes a task, or has invoked the one it has. */
  ghost function Rank(s: State, i: nat): nat
    requires i < |s.workers|
  {
    var n := |s.workers|;
    match s.workers[i]
    case Acquire => n + 4
    case Pop => n + 3
    case Steal(j) =>
      (if j < n then n - j else 0) + (if j < n && PassedEmpty(s, i, j) then 3 else n + 5)
    case CheckUnassigned => n + 4
    case Took(_, _) => n + 8
    case Invoke(_, _) => n + 7
    case Finish(_) => n + 6
    case _ => 0
  }

  ghost function Remaining(s: State, i: nat): int
    requires i < |s.workers|
  {
    Queued(s) * (|s.workers| + 5) + Rank(s, i)
  }

  lemma OneLess(t: int, k: int)
    ensures (t - 1) * k == t * k - k
    ensures t >= 0 && k >= 0 ==> t * k >= 0
  {}

  /** A task is taken from deque `k`. */
  lemma TakeFalls(s: State, i: nat)
    requires Inv(s) && CanWork(s, i) && (s.workers[i].Pop? || s.workers[i].Steal?)
    requires Victim(s, i) < |s.deques| && s.deques[Victim(s, i)] != []
    ensures var s' := NextOfWorker(s, i);
      i < |s'.workers| && Remaining(s', i) < Remaining(s, i) && Active(s', i)
  {
    hide NextOfWorker, Inv, PassedEmpty, Counts, Placed, Alarms, Reports, Ids;
    TakeEffect(s, i);
    var s', k := NextOfWorker(s, i), Victim(s, i);
    InvShape(s);
    SumUpdate(s.deques, k, s'.deques[k], Length);
    OneLess(Queued(s), |s.workers| + 5);
  }

  /** A look into an empty deque. */
  lemma VainFalls(s: State, i: nat)
    requires Inv(s) && CanWork(s, i) && (s.workers[i].Pop? || s.workers[i].Steal?) && Queued(s) != 0
    requires Victim(s, i) < |s.deques| && s.deques[Victim(s, i)] == []
    ensures var s' := NextOfWorker(s, i);
      i < |s'.workers| && Remaining(s', i) < Remaining(s, i) && Active(s', i)
  {
    hide Inv, Counts, Placed, Alarms, Reports, Ids, Looked, Queued;
    InvShape(s);
    var s', n := NextOfWorker(s, i), |s.workers|;
    assert s' == s.(workers := s'.workers);
    SameQueued(s, s');
    SameLooks(s, s', i);
    OwnIsFirst(s, i);
    if s.workers[i].Steal? { LookedIs(s, i, s.workers[i].j); }
    if PassedEmpty(s, i, n) { NothingQueued(s, i); }
  }

  lemma SameQueued(s: State, s': State)
    requires s'.deques == s.deques
    ensures Queued(s') == Queued(s)
  {}

  lemma NothingQueued(s: State, i: nat)
    requires PassedEmpty(s, i, |s.workers|)
    ensures Queued(s) == 0
  {
    forall k | 0 <= k < |s.deques| ensures Length(s.deques[k]) == 0 { var m := Surrounds(s, i, k); }
    SumConstant(s.deques, Length, 0);
  }

  /** The other operations of the worker. */
  lemma OtherFalls(s: State, i: nat)
    requires Inv(s) && CanWork(s, i) && Active(s, i) && !s.workers[i].Pop? && !s.workers[i].Steal?
    requires Queued(s) != 0 || WorkerBag(s.workers[i]) != multiset{}
    ensures var s' := NextOfWorker(s, i);
      && i < |s'.workers|
      && ((Remaining(s', i) < Remaining(s, i) && Active(s', i)) || AllDone(s', i))
  {
    hide Inv, Counts, Placed, Alarms, Reports, Ids, Queued, PassedEmpty;
    InvShape(s);
    CountedOnes(s);
    SameQueued(s, NextOfWorker(s, i));
  }

  /** What is queued is counted, so that a worker looks again as long as there is a task. */
  lemma CountedOnes(s: State)
    requires Inv(s)
    ensures 0 <= Queued(s) <= s.unassigned
  {
    NonNegative(s);
  }

  lemma RemainingFalls(s: State, i: nat)
    requires Inv(s) && Active(s, i) && !AllDone(s, i)
    ensures Enabled(s, Work(i))
    ensures var s' := Step(s, Work(i));
      && Inv(s') && |s'.workers| == |s.workers|
      && ((Active(s', i) && Remaining(s', i) < Remaining(s, i)) || AllDone(s', i))
  {
    hide Inv, Queued, NextOfWorker, Rank, Remaining;
    InvShape(s);
    StepInv(s, Work(i));
    WorkersStay(s, i);
    if s.workers[i].Pop? || s.workers[i].Steal? {
      VictimThere(s, i);
      if s.deques[Victim(s, i)] == [] { VainFalls(s, i); } else { TakeFalls(s, i); }
    } else {
      OtherFalls(s, i);
    }
  }

  lemma WorkersStay(s: State, i: nat)
    requires CanWork(s, i)
    ensures |NextOfWorker(s, i).workers| == |s.workers|
  {}

  lemma VictimThere(s: State, i: nat)
    requires Shape(s) && i < |s.workers|
    ensures Victim(s, i) < |s.deques|
  {}

  /**
   From any state that a run can reach, a worker that has been signalled, or is at work, takes and invokes
   every task in every deque, its own and others', if it runs on alone, within a number of operations
   that grows with that of tasks times that of workers.
   */
  lemma WorkerEmptiesAlone(init: State, es: seq<Event>, i: nat)
    requires Initial(init) && Active(Play(init, es), i)
    ensures var s := Play(init, es);
      0 <= Remaining(s, i) <= Queued(s) * (|s.workers| + 5) + 2 * |s.workers| + 8
      && Runs.Ends(Step, s, Work(i), Remaining(s, i), (s: State) => AllDone(s, i))
  {
    hide Inv, Queued, Rank, Step, AllDone, Active;
    InitialInv(init);
    PlayInv(init, es);
    var s := Play(init, es);
    ActiveIsWorker(s, i);
    RemainingIsNat(s, i);
    var inv := (s: State) => i < |s.workers| && Inv(s) && (Active(s, i) || AllDone(s, i));
    var left := (s: State) => if i < |s.workers| && Remaining(s, i) >= 0 && !AllDone(s, i) then Remaining(s, i) else 0;
    var done := (s: State) => AllDone(s, i);
    forall s | inv(s) && !done(s) ensures inv(Step(s, Work(i))) && left(Step(s, Work(i))) < left(s) {
      RemainingFalls(s, i);
      RemainingIsNat(s, i);
      RemainingIsNat(Step(s, Work(i)), i);
    }
    Runs.FallingEnds(Step, s, Work(i), inv, left, done);
    EndsLater(s, i, left(s), Remaining(s, i));
  }

  lemma EndsLater(s: State, i: nat, m: nat, n: nat)
    requires Runs.Ends(Step, s, Work(i), m, (s: State) => AllDone(s, i)) && m <= n
    ensures Runs.Ends(Step, s, Work(i), n, (s: State) => AllDone(s, i))
  {}

  lemma ActiveIsWorker(s: State, i: nat)
    requires Active(s, i)
    ensures i < |s.workers|
  {}

  lemma RemainingIsNat(s: State, i: nat)
    requires Inv(s) && i < |s.workers|
    ensures 0 <= Remaining(s, i) <= Queued(s) * (|s.workers| + 5) + 2 * |s.workers| + 8
    ensures !AllDone(s, i) && Active(s, i) ==> Remaining(s, i) > 0
  {
    hide PassedEmpty, Inv;
    CountedOnes(s);
    OneLess(Queued(s), |s.workers| + 5);
  }

  // ----- every call goes on to its end

  /** How many operations a thread has before it in `enqueue_task` or `clear_tasks`. */
  function CallLeft(s: State, p: Client): nat
  {
    match p
    case CountUnassigned(_, _) => 5
    case CountInFlight(_, _) => 4
    case ResetSignal(_, _) => 3
    case Push(_, _) => 2
    case Signal(_) => 1
    case Clear(i, _) => if i < |s.deques| then |s.deques| - i + 3 else 3
    case ClearInFlight(_) => 2
    case ClearUnassigned(_) => 1
    case _ => 0
  }

  predicate InWait(p: Client)
  {
    p.Wait? || p.Compare? || p.Sleep?
  }

  /**
   Enqueuing a task takes five operations at most, and clearing the deques three more than there are deques,
   whatever workers and other threads do in between.
   */
  lemma CallsEnd(s: State, e: Event, c: nat)
    requires Inv(s) && Enabled(s, e) && c < |s.clients| && !InWait(s.clients[c])
    ensures |Next(s, e).clients| == |s.clients| && |Next(s, e).deques| == |s.deques|
    ensures var p, p' := s.clients[c], Next(s, e).clients[c];
      if e == Enqueue(c) then |s.workers| > 0 ==> CallLeft(Next(s, e), p') == 5
      else if e == ClearTasks(c) then CallLeft(Next(s, e), p') == |s.deques| + 3
      else if e == WaitForTasks(c) then p' == Wait
      else if e == Go(c) then CallLeft(Next(s, e), p') < CallLeft(s, p) && (p' == Idle <==> CallLeft(s, p) == 1)
      else p' == p && CallLeft(Next(s, e), p') == CallLeft(s, p)
  {
    hide Counts, Placed, Alarms, Reports, Ids, NextOfWorker, RotatedToBack, RotatedToFront;
    StepShapes(s, e);
    if s.clients[c].Push? { PushIsInRange(s, c); }
    if e.Enqueue? { FirstIsThere(s); }
  }

  lemma StepShapes(s: State, e: Event)
    requires Enabled(s, e)
    ensures |Next(s, e).deques| == |s.deques|
    ensures e.Work? || e.Notify? ==> NextOfWorker(s, e.i).clients == s.clients
  {
    hide NextOfWorker;
    if e.Work? || e.Notify? { WorkerLeavesThreads(s, e.i); }
  }

  lemma WorkerLeavesThreads(s: State, i: nat)
    requires CanWork(s, i)
    ensures var s' := NextOfWorker(s, i);
      s'.clients == s.clients && s'.cleared == s.cleared && |s'.deques| == |s.deques|
  {
    hide RotatedToFront;
  }

  lemma PushIsInRange(s: State, c: nat)
    requires Inv(s) && c < |s.clients| && s.clients[c].Push?
    ensures s.clients[c].i < |s.deques|
  {
    hide Counts, Placed, Alarms, Reports;
    assert ClientIdOk(s, s.clients[c]);
  }

  lemma FirstIsThere(s: State)
    requires Inv(s)
    ensures |s.workers| > 0 ==> s.priority != []
  {
    hide Counts, Placed, Alarms, Reports;
    assert |multiset(s.priority)| == |s.priority| && |multiset(Upto(|s.workers|))| == |Upto(|s.workers|)| == |s.workers|;
  }

  /** With nothing in flight and the signal set, a thread in `wait_for_tasks` returns after three operations at most. */
  lemma WaitEnds(s: State, c: nat)
    requires Shape(s) && c < |s.clients| && InWait(s.clients[c]) && s.inFlight <= 0 && s.complete
    ensures Runs.Ends(Step, s, Go(c), 3, (s: State) => c < |s.clients| && s.clients[c] == Idle)
  {
    var inv := (s: State) =>
      Shape(s) && c < |s.clients| && (InWait(s.clients[c]) || s.clients[c] == Idle) && s.inFlight <= 0 && s.complete;
    var left := (s: State) =>
      if c < |s.clients| then (match s.clients[c] case Sleep => 3 case Compare => 2 case Wait => 1 case _ => 0) else 0;
    var done := (s: State) => c < |s.clients| && s.clients[c] == Idle;
    forall s | inv(s) && !done(s) ensures inv(Step(s, Go(c))) && left(Step(s, Go(c))) < left(s) {}
    Runs.FallingEnds(Step, s, Go(c), inv, left, done);
  }

  // ----- the completion signal

  /** Worker `i`, in its latest operation of the run, has looked at `in_flight_tasks_` and found it to be 0. */
  predicate SawNone(init: State, es: seq<Event>, i: nat)
  {
    es != [] &&
    var s, e := Play(init, es[..|es| - 1]), es[|es| - 1];
    if Enabled(s, e) && (e.Work? || e.Notify?) && e.i == i then
      e.Work? && s.inFlight == 0 && s.workers[i] == CheckInFlight
    else SawNone(init, es[..|es| - 1], i)
  }

  /** The latest change to the completion signal was to true: by a worker that had seen that nothing was in flight. */
  predicate LastSet(init: State, es: seq<Event>)
  {
    es != [] &&
    var front, e := es[..|es| - 1], es[|es| - 1];
    var s := Play(init, front);
    if Enabled(s, e) && e.Work? && SawNone(init, front, e.i) then true
    else if Enabled(s, e) && e.Go? && s.clients[e.c].ResetSignal? then false
    else LastSet(init, front)
  }

  lemma SignalStep(s: State, e: Event)
    requires Enabled(s, e)
    ensures |Next(s, e).workers| == |s.workers|
    ensures forall i :: 0 <= i < |s.workers| && !((e.Work? || e.Notify?) && e.i == i) ==>
              Next(s, e).workers[i] == s.workers[i]
    ensures e.Work? ==> (Next(s, e).workers[e.i] == SetComplete <==> s.workers[e.i] == CheckInFlight && s.inFlight == 0)
    ensures e.Notify? ==> Next(s, e).workers[e.i] == Acquire
    ensures Next(s, e).complete ==
      if e.Work? && s.workers[e.i] == SetComplete then true
      else if e.Go? && s.clients[e.c].ResetSignal? then false
      else s.complete
  {
    hide NextOfWorker, NextOfClient;
    match e
    case Work(i) => WorkerSignals(s, i);
    case Notify(i, c) =>
      WorkerSignals(s, i);
      if Asleep(NextOfWorker(s, i), c) { ThreadSignals(NextOfWorker(s, i), c); }
    case Go(c) => ThreadSignals(s, c);
    case _ =>
  }

  lemma WorkerSignals(s: State, i: nat)
    requires CanWork(s, i)
    ensures var s' := NextOfWorker(s, i);
      && |s'.workers| == |s.workers| && s'.workers == s.workers[i := s'.workers[i]]
      && s'.complete == (s.complete || s.workers[i] == SetComplete)
      && (s'.workers[i] == SetComplete <==> s.workers[i] == CheckInFlight && s.inFlight == 0)
      && (s.workers[i] == NotifyOne ==> s'.workers[i] == Acquire)
  {
    hide RotatedToFront;
  }

  lemma ThreadSignals(s: State, c: nat)
    requires c < |s.clients|
    ensures var s' := NextOfClient(s, c);
      s'.workers == s.workers && s'.complete == (s.complete && !s.clients[c].ResetSignal?)
  {}

  /**
   In every run: a worker is about to set the completion signal if and only if it has just seen that nothing
   was in flight; and the signal is set if and only if the latest to change it was such a worker, and not a
   thread that enqueued a task and found none in flight.
   */
  lemma {:induction false} SignalTellsTheTruth(init: State, es: seq<Event>)
    requires Initial(init)
    ensures var s := Play(init, es);
      && (forall i :: 0 <= i < |s.workers| ==> (s.workers[i] == SetComplete <==> SawNone(init, es, i)))
      && s.complete == LastSet(init, es)
  {
    hide Next, Initial;
    if es == [] {
      NothingSet(init);
    } else {
      var s, e := Play(init, es[..|es| - 1]), es[|es| - 1];
      SignalTellsTheTruth(init, es[..|es| - 1]);
      if Enabled(s, e) { SignalStep(s, e); }
    }
  }

  lemma NothingSet(init: State)
    requires Initial(init)
    ensures !init.complete && forall i :: 0 <= i < |init.workers| ==> init.workers[i] == Acquire
  {}

  // ----- what `clear_tasks` returns

  /** How many tasks thread `c` has cleared since its latest call of `clear_tasks` began. */
  function ClearedBy(init: State, es: seq<Event>, c: nat): int
  {
    if es == [] then 0
    else
      var s, e, before := Play(init, es[..|es| - 1]), es[|es| - 1], ClearedBy(init, es[..|es| - 1], c);
      if !Enabled(s, e) then before
      else if e == ClearTasks(c) then 0
      else if e == Go(c) then before + |Next(s, e).cleared| - |s.cleared|
      else before
  }

  predicate Clears(p: Client)
  {
    p.Clear? || p.ClearInFlight? || p.ClearUnassigned?
  }

  lemma ClearStep(s: State, e: Event, c: nat)
    requires Enabled(s, e) && c < |s.clients|
    ensures c < |Next(s, e).clients|
    ensures var p, p' := s.clients[c], Next(s, e).clients[c];
      if e == ClearTasks(c) then p' == Clear(0, 0)
      else
        Clears(p') ==>
          Clears(p) && p'.removed - p.removed == if e == Go(c) then |Next(s, e).cleared| - |s.cleared| else 0
  {
    hide NextOfWorker, NextOfClient;
    match e
    case Work(i) => WorkerLeavesThreads(s, i);
    case Notify(i, d) =>
      WorkerLeavesThreads(s, i);
      if Asleep(NextOfWorker(s, i), d) { ThreadClears(NextOfWorker(s, i), d); }
    case Go(d) => ThreadClears(s, d);
    case _ =>
  }

  lemma ThreadClears(s: State, c: nat)
    requires c < |s.clients|
    ensures var s', p := NextOfClient(s, c), s.clients[c];
      && s'.clients == s.clients[c := s'.clients[c]] && (p.Sleep? ==> s'.clients[c].Compare?)
      && (Clears(s'.clients[c]) ==> Clears(p) && s'.clients[c].removed - p.removed == |s'.cleared| - |s.cleared|)
  {
    if s.clients[c].Clear? && s.clients[c].i < |s.deques| {
      assert |multiset(s.deques[s.clients[c].i])| == |s.deques[s.clients[c].i]|;
    }
  }

  /** In every run, the count that `clear_tasks` subtracts and returns is that of the tasks that it has cleared. */
  lemma {:induction false} ClearCountsWhatItClears(init: State, es: seq<Event>, c: nat)
    requires Initial(init) && c < |init.clients|
    ensures c < |Play(init, es).clients|
    ensures var p := Play(init, es).clients[c];
      Clears(p) ==> p.removed == ClearedBy(init, es, c)
  {
    hide Next;
    if es != [] {
      var s, e := Play(init, es[..|es| - 1]), es[|es| - 1];
      ClearCountsWhatItClears(init, es[..|es| - 1], c);
      if Enabled(s, e) { ClearStep(s, e, c); }
    }
  }
}
