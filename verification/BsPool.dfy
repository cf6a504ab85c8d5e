/**
 The pool that is built on one mutex and two condition variables: its workers, `detach_task`, `wait`
 and the timed waits, `purge`, `pause`, `unpause` and `reset`.

 Each step is one critical section; waiting on a condition variable ends a section, and waking up,
 for a notification or for no reason, begins the next.  `reset` is a wait, then Stop, then Recreate
 once all the workers have left.  A worker may take any queued task, so that priorities are covered.

 `submitted`, `finished` and `purged` are history variables; tasks are numbered as submitted.
 */
module BsPool {
  import opened Counting
  import Runs

  datatype Worker =
    | Ready                 // about to lock the mutex and lower tasks_running: a new thread, or done with a task
    | Parked                // waiting on task_available_cv
    | Running(task: nat)
    | Exited

  datatype Waiter =
    | Out
    | Sleeping(notified: bool)   // waiting on tasks_done_cv

  datatype State = State(
    tasks: seq<nat>,
    running: int,           // tasks_running
    waiting: bool,
    paused: bool,
    stop: bool,
    workers: seq<Worker>,
    waiters: seq<Waiter>,
    submitted: nat,
    finished: multiset<nat>,
    purged: multiset<nat>)

  datatype Event =
    | DetachTask
    | Finish(w: nat)        // the task that worker w runs returns or throws
    | Work(w: nat, k: nat)  // worker w's next critical section; if it takes a task, it takes the k-th
    | Wait(c: nat)
    | WakeUp(c: nat)
    | TimeOut(c: nat)
    | Purge
    | Pause
    | Unpause
    | Stop
    | Recreate(n: nat)

  ghost predicate Initial(s: State)
  {
    && s.tasks == [] && s.running == |s.workers| && !s.waiting && !s.paused && !s.stop
    && (forall w :: 0 <= w < |s.workers| ==> s.workers[w] == Ready)
    && (forall c :: 0 <= c < |s.waiters| ==> s.waiters[c] == Out)
    && s.submitted == 0 && s.finished == multiset{} && s.purged == multiset{}
  }

  /** The predicate of `wait`. */
  predicate TasksDone(s: State)
  {
    s.running == 0 && (s.paused || s.tasks == [])
  }

  /** The predicate of the workers' wait, without the stop condition. */
  predicate TaskAvailable(s: State)
  {
    !(s.paused || s.tasks == [])
  }

  predicate Enabled(s: State, e: Event)
  {
    match e
    case DetachTask => true
    case Finish(w) => w < |s.workers| && s.workers[w].Running?
    case Work(w, k) =>
      && w < |s.workers| && (s.workers[w] == Ready || s.workers[w] == Parked)
      && (TaskAvailable(s) && !s.stop ==> k < |s.tasks|)
    case Wait(c) => c < |s.waiters| && s.waiters[c] == Out
    case WakeUp(c) => c < |s.waiters| && s.waiters[c].Sleeping?
    case TimeOut(c) => c < |s.waiters| && s.waiters[c].Sleeping?
    case Purge => true
    case Pause => true
    case Unpause => true
    case Stop => true
    case Recreate(n) => n > 0 && forall w :: 0 <= w < |s.workers| ==> s.workers[w] == Exited
  }

  /** `tasks_done_cv.notify_all`. */
  function NotifyAll(waiters: seq<Waiter>): seq<Waiter>
  {
    seq(|waiters|, c requires 0 <= c < |waiters| => if waiters[c].Sleeping? then Sleeping(true) else Out)
  }

  /** The worker lowers the count of running tasks, and notifies the waiters when that was the last. */
  function Lower(s: State): State
  {
    var s' := s.(running := s.running - 1);
    if s.waiting && TasksDone(s') then s'.(waiters := NotifyAll(s.waiters)) else s'
  }

  /** The worker, its predicate evaluated under the mutex, takes a task, leaves, or waits. */
  function Choose(s: State, w: nat, k: nat): State
    requires w < |s.workers| && (TaskAvailable(s) && !s.stop ==> k < |s.tasks|)
  {
    if s.stop then s.(workers := s.workers[w := Exited])
    else if TaskAvailable(s) then
      s.(tasks := s.tasks[..k] + s.tasks[k + 1..], running := s.running + 1,
         workers := s.workers[w := Running(s.tasks[k])])
    else s.(workers := s.workers[w := Parked])
  }

  /** `wait` evaluates its predicate under the mutex, and returns or sleeps on. */
  function Await(s: State, c: nat): State
    requires c < |s.waiters|
  {
    if TasksDone(s) then s.(waiting := false, waiters := s.waiters[c := Out])
    else s.(waiters := s.waiters[c := Sleeping(false)])
  }

  function Next(s: State, e: Event): State
    requires Enabled(s, e)
  {
    match e
    case DetachTask => s.(tasks := s.tasks + [s.submitted], submitted := s.submitted + 1)
    case Finish(w) =>
      s.(workers := s.workers[w := Ready], finished := s.finished + multiset{s.workers[w].task})
    case Work(w, k) => Choose(if s.workers[w] == Ready then Lower(s) else s, w, k)
    case Wait(c) => Await(s.(waiting := true), c)
    case WakeUp(c) => Await(s, c)
    case TimeOut(c) => s.(waiting := false, waiters := s.waiters[c := Out])
    case Purge => s.(tasks := [], purged := s.purged + multiset(s.tasks))
    case Pause => s.(paused := true)
    case Unpause => s.(paused := false)
    case Stop => s.(stop := true)
    case Recreate(n) => s.(stop := false, running := n, workers := seq(n, _ => Ready))
  }

  // ----- what the count counts, and where tasks are

  /** The worker is neither parked nor has it exited. */
  function Busy(w: Worker): int
  {
    if w.Ready? || w.Running? then 1 else 0
  }

  function RunsTask(t: nat): Worker -> int
  {
    (w: Worker) => if w == Running(t) then 1 else 0
  }

  /** In how many places task `t` is. */
  function Places(s: State, t: nat): int
  {
    multiset(s.tasks)[t] + Sum(s.workers, RunsTask(t)) + s.finished[t] + s.purged[t]
  }

  ghost predicate Inv(s: State)
  {
    && s.running == Sum(s.workers, Busy)
    && (forall t: nat :: Places(s, t) == if t < s.submitted then 1 else 0)
  }

  lemma InitialInv(s: State)
    requires Initial(s)
    ensures Inv(s)
  {
    SumConstant(s.workers, Busy, 1);
    forall t: nat ensures Places(s, t) == 0 { SumConstant(s.workers, RunsTask(t), 0); }
  }

  /** One worker changes from `w` to `w'`, and at most one task moves. */
  lemma WorkerInv(s: State, s': State, w: nat)
    requires Inv(s) && w < |s.workers| && w < |s'.workers| && s'.workers == s.workers[w := s'.workers[w]]
    requires s'.running - s.running == Busy(s'.workers[w]) - Busy(s.workers[w])
    requires s'.submitted == s.submitted
    requires forall t: nat ::
      multiset(s.tasks)[t] + RunsTask(t)(s.workers[w]) + s.finished[t] + s.purged[t]
      == multiset(s'.tasks)[t] + RunsTask(t)(s'.workers[w]) + s'.finished[t] + s'.purged[t]
    ensures Inv(s')
  {
    SumUpdate(s.workers, w, s'.workers[w], Busy);
    forall t: nat ensures Places(s', t) == if t < s'.submitted then 1 else 0 {
      SumUpdate(s.workers, w, s'.workers[w], RunsTask(t));
      assert Places(s, t) == if t < s.submitted then 1 else 0;
    }
  }

  /** The state in which a worker evaluates its predicate. */
  function Entered(s: State, w: nat): State
    requires w < |s.workers|
  {
    if s.workers[w] == Ready then Lower(s) else s
  }

  lemma EnteredIsLower(s: State, w: nat)
    requires w < |s.workers| && (s.workers[w] == Ready || s.workers[w] == Parked)
    ensures var l := Entered(s, w);
      && l.workers == s.workers && l.tasks == s.tasks && l.finished == s.finished && l.purged == s.purged
      && l.submitted == s.submitted && l.stop == s.stop && l.paused == s.paused
      && l.running == s.running - Busy(s.workers[w])
  {}

  lemma WorkInv(s: State, w: nat, k: nat)
    requires Inv(s) && Enabled(s, Work(w, k))
    ensures Inv(Next(s, Work(w, k)))
  {
    hide Inv, Entered, Lower;
    EnteredIsLower(s, w);
    var l := Entered(s, w);
    var s' := Choose(l, w, k);
    NextIsChoose(s, w, k);
    if TaskAvailable(s) && !s.stop {
      TakeOne(s.tasks, k);
    }
    WorkerInv(s, s', w);
  }

  lemma NextIsChoose(s: State, w: nat, k: nat)
    requires Enabled(s, Work(w, k))
    ensures TaskAvailable(Entered(s, w)) == TaskAvailable(s) && Entered(s, w).stop == s.stop
    ensures |Entered(s, w).tasks| == |s.tasks| && |Entered(s, w).workers| == |s.workers|
    ensures Next(s, Work(w, k)) == Choose(Entered(s, w), w, k)
  {}

  lemma TakeOne(tasks: seq<nat>, k: nat)
    requires k < |tasks|
    ensures forall t: nat ::
      multiset(tasks)[t] == multiset(tasks[..k] + tasks[k + 1..])[t] + if t == tasks[k] then 1 else 0
  {
    assert tasks == tasks[..k] + [tasks[k]] + tasks[k + 1..];
    assert multiset(tasks) == multiset(tasks[..k] + tasks[k + 1..]) + multiset{tasks[k]};
  }

  lemma StepInv(s: State, e: Event)
    requires Inv(s) && Enabled(s, e)
    ensures Inv(Next(s, e))
  {
    var s' := Next(s, e);
    match e
    case DetachTask => DetachInv(s);
    case Finish(w) => WorkerInv(s, s', w);
    case Work(w, k) => WorkInv(s, w, k);
    case Wait(c) => SamePlaces(s, s');
    case WakeUp(c) => SamePlaces(s, s');
    case TimeOut(c) => SamePlaces(s, s');
    case Purge => PurgeInv(s);
    case Pause => SamePlaces(s, s');
    case Unpause => SamePlaces(s, s');
    case Stop => SamePlaces(s, s');
    case Recreate(n) => RecreateInv(s, n);
  }

  lemma SamePlaces(s: State, s': State)
    requires Inv(s) && s'.running == s.running && s'.workers == s.workers && s'.tasks == s.tasks
    requires s'.finished == s.finished && s'.purged == s.purged && s'.submitted == s.submitted
    ensures Inv(s')
  {
    forall t: nat ensures Places(s', t) == Places(s, t) {}
  }

  lemma DetachInv(s: State)
    requires Inv(s)
    ensures Inv(Next(s, DetachTask))
  {
    var s' := Next(s, DetachTask);
    forall t: nat ensures Places(s', t) == if t < s'.submitted then 1 else 0 {
      assert Places(s, t) == if t < s.submitted then 1 else 0;
    }
  }

  lemma PurgeInv(s: State)
    requires Inv(s)
    ensures Inv(Next(s, Purge))
  {
    var s' := Next(s, Purge);
    forall t: nat ensures Places(s', t) == Places(s, t) {}
  }

  lemma RecreateInv(s: State, n: nat)
    requires Inv(s) && Enabled(s, Recreate(n))
    ensures Inv(Next(s, Recreate(n)))
  {
    var s' := Next(s, Recreate(n));
    SumConstant(s'.workers, Busy, 1);
    forall t: nat ensures Places(s', t) == if t < s'.submitted then 1 else 0 {
      SumConstant(s.workers, RunsTask(t), 0);
      SumConstant(s'.workers, RunsTask(t), 0);
      assert Places(s, t) == if t < s.submitted then 1 else 0;
    }
  }

  // ----- runs

  /** An event that is not enabled when its turn comes changes nothing. */
  function Step(s: State, e: Event): State
  {
    if Enabled(s, e) then Next(s, e) else s
  }

  function Play(s: State, es: seq<Event>): State
  {
    Runs.Play(Step, s, es)
  }

  lemma PlayInv(s: State, es: seq<Event>)
    requires Inv(s)
    ensures Inv(Play(s, es))
  {
    forall s, e | Inv(s) ensures Inv(Step(s, e)) {
      if Enabled(s, e) { StepInv(s, e); }
    }
    Runs.PlayKeeps(Step, s => Inv(s), s, es);
  }

  /**
   In every run: the count of running tasks is the number of workers that are neither parked nor gone,
   and each submitted task is in exactly one place: queued, being run, finished or purged.
   */
  lemma PoolIsSafe(init: State, es: seq<Event>)
    requires Initial(init)
    ensures var s := Play(init, es);
      && s.running == Sum(s.workers, Busy)
      && forall t: nat :: Places(s, t) == if t < s.submitted then 1 else 0
  {
    InitialInv(init);
    PlayInv(init, es);
  }

  /** `wait` returns on an unpaused pool only when every task submitted before is finished or purged. */
  lemma WaitReturnsWhenAllAreDone(s: State, e: Event)
    requires Inv(s) && Enabled(s, e) && (e.Wait? || e.WakeUp?) && Next(s, e).waiters[e.c] == Out
    ensures forall w :: 0 <= w < |s.workers| ==> !s.workers[w].Running?
    ensures !s.paused ==> forall t: nat :: t < s.submitted ==> s.finished[t] + s.purged[t] == 1
  {
    SumBounds(s.workers, Busy);
    forall w | 0 <= w < |s.workers| ensures !s.workers[w].Running? {
      assert Busy(s.workers[w]) <= 0;
    }
    forall t: nat | t < s.submitted && !s.paused ensures s.finished[t] + s.purged[t] == 1 {
      SumConstant(s.workers, RunsTask(t), 0);
      assert Places(s, t) == 1;
    }
  }

  /** A thread's wait ends by a step of its own only: its predicate is true, or its time is out. */
  lemma WaitEndsByItself(s: State, e: Event, c: nat)
    requires Inv(s) && Enabled(s, e) && c < |s.waiters|
    requires s.waiters[c].Sleeping? || e == Wait(c)
    ensures var s' := Next(s, e);
      && c < |s'.waiters|
      && (s'.waiters[c] == Out <==> e == TimeOut(c) || ((e == Wait(c) || e == WakeUp(c)) && TasksDone(s)))
  {
    hide Inv, Lower;
    if e.Work? {
      NextIsChoose(s, e.w, e.k);
      EntersAsleep(s, e.w);
    }
  }

  /** Notifying a thread does not end its wait. */
  lemma EntersAsleep(s: State, w: nat)
    requires w < |s.workers|
    ensures var l := Entered(s, w);
      |l.waiters| == |s.waiters| && forall c :: 0 <= c < |s.waiters| && s.waiters[c].Sleeping? ==> l.waiters[c].Sleeping?
  {}

  // ----- what workers do

  /** The latest of `pause` and `unpause` was `pause`. */
  predicate PausedBy(es: seq<Event>)
  {
    es != [] && (es[|es| - 1].Pause? || (!es[|es| - 1].Unpause? && PausedBy(es[..|es| - 1])))
  }

  /** The workers have been told to stop, and no new ones have been made since. */
  predicate StoppedBy(init: State, es: seq<Event>)
  {
    es != [] &&
    var front, e := es[..|es| - 1], es[|es| - 1];
    e.Stop? || (StoppedBy(init, front) && !(e.Recreate? && Enabled(Play(init, front), e)))
  }

  lemma {:induction false} SwitchesKept(init: State, es: seq<Event>)
    requires Initial(init)
    ensures var s := Play(init, es);
      && s.paused == PausedBy(es) && s.stop == StoppedBy(init, es)
      && (s.stop || forall w :: 0 <= w < |s.workers| ==> s.workers[w] != Exited)
      && (|init.workers| > 0 ==> |s.workers| > 0)
  {
    hide Next;
    if es != [] {
      var s, e := Play(init, es[..|es| - 1]), es[|es| - 1];
      SwitchesKept(init, es[..|es| - 1]);
      if Enabled(s, e) { SwitchStep(s, e); }
    }
  }

  lemma SwitchStep(s: State, e: Event)
    requires Enabled(s, e)
    ensures var s' := Next(s, e);
      && s'.paused == (e.Pause? || (!e.Unpause? && s.paused)) && s'.stop == (e.Stop? || (!e.Recreate? && s.stop))
      && (|s.workers| > 0 ==> |s'.workers| > 0)
      && ((s.stop || forall w :: 0 <= w < |s.workers| ==> s.workers[w] != Exited) ==>
           s'.stop || forall w :: 0 <= w < |s'.workers| ==> s'.workers[w] != Exited)
  {
    hide Lower;
    if e.Work? {
      NextIsChoose(s, e.w, e.k);
      EnteredIsLower(s, e.w);
    }
  }

  /**
   In every run, what a worker does in its next section depends on what has been called: if the workers have
   been told to stop, it leaves; otherwise, if the pool is paused or has no task, it waits; and otherwise
   it takes the task that it chooses, whether it had been waiting or not.
   */
  lemma WorkersObey(init: State, es: seq<Event>, w: nat, k: nat)
    requires Initial(init) && Enabled(Play(init, es), Work(w, k))
    ensures var s, s' := Play(init, es), Next(Play(init, es), Work(w, k));
      && |s'.workers| == |s.workers| && (forall v :: 0 <= v < |s.workers| && v != w ==> s'.workers[v] == s.workers[v])
      && if StoppedBy(init, es) then s'.workers[w] == Exited && s'.tasks == s.tasks
         else if PausedBy(es) || s.tasks == [] then s'.workers[w] == Parked && s'.tasks == s.tasks
         else
           && k < |s.tasks| && s'.workers[w] == Running(s.tasks[k])
           && |s'.tasks| == |s.tasks| - 1 && s'.tasks[..k] == s.tasks[..k] && s'.tasks[k..] == s.tasks[k + 1..]
  {
    SwitchesKept(init, es);
  }

  function WorkerLeft(w: Worker): int
  {
    match w
    case Running(_) => 3
    case Ready => 2
    case Parked => 1
    case Exited => 0
  }

  /** How many steps the workers have before them at most, as long as nothing else happens. */
  function Left(s: State): int
  {
    4 * |s.tasks| + Sum(s.workers, WorkerLeft)
  }

  /** The worker wakes and finds nothing to do. */
  predicate Vain(s: State, e: Event)
  {
    e.Work? && e.w < |s.workers| && s.workers[e.w] == Parked && !TaskAvailable(s) && !s.stop
  }

  lemma LeftFalls(s: State, e: Event)
    requires Inv(s) && Enabled(s, e) && (e.Work? || e.Finish?)
    ensures 0 <= Left(Next(s, e))
    ensures if Vain(s, e) then Next(s, e) == s else Left(Next(s, e)) < Left(s)
  {
    hide Inv, Lower;
    SumBounds(Next(s, e).workers, WorkerLeft);
    if e.Work? {
      NextIsChoose(s, e.w, e.k);
      EnteredIsLower(s, e.w);
    }
    var s' := Next(s, e);
    assert e.w < |s'.workers| && s'.workers == s.workers[e.w := s'.workers[e.w]];
    SumUpdate(s.workers, e.w, s'.workers[e.w], WorkerLeft);
  }

  /**
   A wait ends.  Each section of a worker, but that of one that wakes and finds nothing to do, and each task
   that returns, brings the workers nearer to their rest (`LeftFalls`); and until the predicate of `wait` is
   true, there is such a step to make, unless the workers have been told to stop.
   */
  lemma WorkersGoOn(init: State, es: seq<Event>) returns (e: Event)
    requires Initial(init) && |init.workers| > 0 && !StoppedBy(init, es) && !TasksDone(Play(init, es))
    ensures var s := Play(init, es);
      (e.Work? || e.Finish?) && Enabled(s, e) && !Vain(s, e) && 0 <= Left(Next(s, e)) < Left(s)
  {
    hide Inv, Next, Left;
    InitialInv(init);
    PlayInv(init, es);
    SwitchesKept(init, es);
    var s := Play(init, es);
    var w := 0;
    if s.running != 0 { w := SomebodyBusy(s); }
    e := if s.workers[w].Running? then Finish(w) else Work(w, 0);
    LeftFalls(s, e);
  }

  lemma SomebodyBusy(s: State) returns (w: nat)
    requires Inv(s) && s.running != 0
    ensures w < |s.workers| && (s.workers[w].Ready? || s.workers[w].Running?)
  {
    if forall v :: 0 <= v < |s.workers| ==> Busy(s.workers[v]) == 0 { SumConstant(s.workers, Busy, 0); }
    w :| w < |s.workers| && Busy(s.workers[w]) != 0;
  }

  // ----- waking the waiters

  predicate Sleeps(s: State, c: nat)
  {
    c < |s.waiters| && s.waiters[c].Sleeping?
  }

  /** The waiter sleeps, and has not been notified since it last looked. */
  predicate Unaware(s: State, c: nat)
  {
    c < |s.waiters| && s.waiters[c] == Sleeping(false)
  }

  /** While a thread waits, the workers know of it; and as long as it has not been notified, it waits for something. */
  ghost predicate Woken(s: State)
  {
    && Inv(s)
    && (forall c :: Sleeps(s, c) ==> s.waiting)
    && (forall c :: Unaware(s, c) ==> !TasksDone(s))
  }

  /**
   Purging and pausing notify nobody; and a thread that returns, or whose time is out, lets the workers
   forget the others that wait.
   */
  ghost predicate Strands(s: State, e: Event)
  {
    match e
    case Purge => s.running == 0 && exists c :: Unaware(s, c)
    case Pause => s.running == 0 && exists c :: Unaware(s, c)
    case TimeOut(c) => exists d :: d != c && Sleeps(s, d)
    case Wait(c) => TasksDone(s) && exists d :: d != c && Sleeps(s, d)
    case WakeUp(c) => TasksDone(s) && exists d :: d != c && Sleeps(s, d)
    case _ => false
  }

  lemma LowerWakes(s: State, w: nat, k: nat)
    requires Woken(s) && Enabled(s, Work(w, k))
    ensures var l := Entered(s, w);
      && |l.waiters| == |s.waiters| && l.waiting == s.waiting
      && forall c :: (Sleeps(l, c) ==> Sleeps(s, c)) && (Unaware(l, c) ==> !TasksDone(l))
  {
    SumBounds(s.workers, Busy);
    assert Busy(s.workers[w]) <= s.running;
    forall c
      ensures Sleeps(Entered(s, w), c) ==> Sleeps(s, c)
      ensures Unaware(Entered(s, w), c) ==> !TasksDone(Entered(s, w))
    {
      assert Sleeps(s, c) ==> s.waiting;
      assert Unaware(s, c) ==> Sleeps(s, c) && !TasksDone(s);
    }
  }

  lemma WorkWakes(s: State, w: nat, k: nat)
    requires Woken(s) && Enabled(s, Work(w, k))
    ensures Woken(Next(s, Work(w, k))) && !Strands(s, Work(w, k))
  {
    hide Inv, Entered, Lower, Next;
    WorkInv(s, w, k);
    LowerWakes(s, w, k);
    NextIsChoose(s, w, k);
    EnteredIsLower(s, w);
    RunningNatural(s, w, k);
    var l, s' := Entered(s, w), Next(s, Work(w, k));
    forall c ensures (Sleeps(s', c) ==> s'.waiting) && (Unaware(s', c) ==> !TasksDone(s')) {
      assert Sleeps(s', c) == Sleeps(l, c) && Unaware(s', c) == Unaware(l, c);
    }
  }

  lemma RunningNatural(s: State, w: nat, k: nat)
    requires Inv(s) && Enabled(s, Work(w, k))
    ensures Entered(s, w).running >= 0
  {
    SumBounds(s.workers, Busy);
    assert Busy(s.workers[w]) <= s.running;
  }

  /** The steps after which a waiting thread has nothing to wait for, or is forgotten, are exactly those. */
  lemma StepWakes(s: State, e: Event)
    requires Woken(s) && Enabled(s, e)
    ensures Woken(Next(s, e)) <==> !Strands(s, e)
  {
    hide Inv, Next, Strands;
    StepInv(s, e);
    match e
    case Work(w, k) => WorkWakes(s, w, k);
    case TimeOut(_) => CallWakes(s, e);
    case Wait(_) => CallWakes(s, e);
    case WakeUp(_) => CallWakes(s, e);
    case Purge => CurtailWakes(s, e);
    case Pause => CurtailWakes(s, e);
    case _ => OtherWakes(s, e);
  }

  lemma CallWakes(s: State, e: Event)
    requires Woken(s) && Enabled(s, e) && Inv(Next(s, e)) && (e.TimeOut? || e.Wait? || e.WakeUp?)
    ensures Woken(Next(s, e)) <==> !Strands(s, e)
  {
    hide Inv;
    if e.TimeOut? {
      LeaveWakes(s, Next(s, e), e.c);
    } else {
      assert e.WakeUp? ==> Sleeps(s, e.c);
      AwaitWakes(s, Next(s, e), e.c);
    }
  }

  lemma CurtailWakes(s: State, e: Event)
    requires Woken(s) && (e.Purge? || e.Pause?) && Enabled(s, e) && Inv(Next(s, e))
    ensures Woken(Next(s, e)) <==> !Strands(s, e)
  {
    hide Inv;
    var s' := Next(s, e);
    assert TasksDone(s') <==> s.running == 0;
    assert forall c :: Sleeps(s', c) == Sleeps(s, c) && Unaware(s', c) == Unaware(s, c);
  }

  lemma OtherWakes(s: State, e: Event)
    requires Woken(s) && Enabled(s, e) && Inv(Next(s, e))
    requires e.DetachTask? || e.Finish? || e.Unpause? || e.Stop? || e.Recreate?
    ensures Woken(Next(s, e)) && !Strands(s, e)
  {
    hide Inv;
    var s' := Next(s, e);
    assert TasksDone(s') ==> TasksDone(s);
    assert forall c :: Sleeps(s', c) == Sleeps(s, c) && Unaware(s', c) == Unaware(s, c);
  }

  lemma LeaveWakes(s: State, s': State, c: nat)
    requires Woken(s) && Inv(s') && c < |s.waiters|
    requires s'.waiters == s.waiters[c := Out] && !s'.waiting && TasksDone(s') == TasksDone(s)
    ensures Woken(s') <==> !exists d :: d != c && Sleeps(s, d)
  {
    hide Inv, TasksDone;
    forall d ensures Sleeps(s', d) == (d != c && Sleeps(s, d)) {}
    forall d ensures Unaware(s', d) ==> Unaware(s, d) {}
  }

  lemma AwaitWakes(s: State, s': State, c: nat)
    requires Woken(s) && Inv(s') && c < |s.waiters| && (s.waiting || s.waiters[c] == Out)
    requires TasksDone(s') == TasksDone(s)
    requires s' == Await(s.(waiting := true), c)
    ensures Woken(s') <==> !(TasksDone(s) && exists d :: d != c && Sleeps(s, d))
  {
    hide Inv;
    if TasksDone(s) {
      LeaveWakes(s, s', c);
    } else {
      forall d ensures Sleeps(s', d) ==> s'.waiting {}
    }
  }

  /** In every run in which no event strands a thread, the workers know of all that wait, and so those are notified. */
  lemma {:induction false} WaitersAreKnown(init: State, es: seq<Event>)
    requires Initial(init)
    requires forall n :: 0 <= n < |es| ==> Harmless(init, es, n)
    ensures Woken(Play(init, es))
  {
    if es == [] {
      InitialInv(init);
    } else {
      var front := es[..|es| - 1];
      forall n | 0 <= n < |front| ensures Harmless(init, front, n) {
        assert Harmless(init, es, n) && front[..n] == es[..n];
      }
      WaitersAreKnown(init, front);
      assert Harmless(init, es, |es| - 1);
      if Enabled(Play(init, front), es[|es| - 1]) { StepWakes(Play(init, front), es[|es| - 1]); }
    }
  }

  /** Event `n` of the run strands nobody. */
  ghost predicate Harmless(init: State, es: seq<Event>, n: nat)
    requires n < |es|
  {
    Enabled(Play(init, es[..n]), es[n]) ==> !Strands(Play(init, es[..n]), es[n])
  }

  /** Nobody sleeps, without having been notified, whose predicate is true. */
  ghost predicate Calm(s: State)
  {
    Inv(s) && forall c :: Unaware(s, c) ==> !TasksDone(s)
  }

  /**
   Purging or pausing notifies nobody; and the worker that is the last to finish notifies nobody when one
   of several waiting threads has left and cleared `waiting`.
   */
  ghost predicate Leaves(s: State, e: Event)
  {
    && (exists c :: Unaware(s, c))
    && match e
       case Purge => s.running == 0
       case Pause => s.running == 0
       case Work(w, _) =>
         w < |s.workers| && s.workers[w] == Ready && s.running == 1 && (s.paused || s.tasks == []) && !s.waiting
       case _ => false
  }

  /** The steps that leave a thread asleep with nothing to wait for are exactly those. */
  lemma StepLeaves(s: State, e: Event)
    requires Calm(s) && Enabled(s, e)
    ensures Calm(Next(s, e)) <==> !Leaves(s, e)
  {
    hide Inv, Next, Leaves;
    StepInv(s, e);
    match e
    case Work(w, k) => WorkLeaves(s, w, k);
    case TimeOut(_) => CallLeaves(s, e);
    case Wait(_) => CallLeaves(s, e);
    case WakeUp(_) => CallLeaves(s, e);
    case Purge => CurtailLeaves(s, e);
    case Pause => CurtailLeaves(s, e);
    case _ => OtherLeaves(s, e);
  }

  lemma WorkLeaves(s: State, w: nat, k: nat)
    requires Calm(s) && Enabled(s, Work(w, k)) && Inv(Next(s, Work(w, k)))
    ensures Calm(Next(s, Work(w, k))) <==> !Leaves(s, Work(w, k))
  {
    hide Inv, Next, Entered, Lower;
    NextIsChoose(s, w, k);
    EnteredIsLower(s, w);
    RunningNatural(s, w, k);
    LowerNotifies(s, w);
    var l, s' := Entered(s, w), Next(s, Work(w, k));
    assert forall c :: Unaware(s', c) == Unaware(l, c);
    assert TasksDone(s') == TasksDone(l);
  }

  /** Lowering the count notifies all when it is the last, and somebody is known to wait. */
  lemma LowerNotifies(s: State, w: nat)
    requires w < |s.workers| && (s.workers[w] == Ready || s.workers[w] == Parked)
    ensures var l := Entered(s, w);
      var notifies := s.workers[w] == Ready && s.waiting && TasksDone(l);
      && (forall c :: Unaware(l, c) == (Unaware(s, c) && !notifies))
      && TasksDone(l) == (if s.workers[w] == Ready then s.running == 1 && (s.paused || s.tasks == []) else TasksDone(s))
  {}

  lemma CallLeaves(s: State, e: Event)
    requires Calm(s) && Enabled(s, e) && Inv(Next(s, e)) && (e.TimeOut? || e.Wait? || e.WakeUp?)
    ensures Calm(Next(s, e)) && !Leaves(s, e)
  {
    hide Inv;
    var s' := Next(s, e);
    assert TasksDone(s') == TasksDone(s);
    assert forall d :: d != e.c ==> Unaware(s', d) == Unaware(s, d);
  }

  lemma CurtailLeaves(s: State, e: Event)
    requires Calm(s) && (e.Purge? || e.Pause?) && Enabled(s, e) && Inv(Next(s, e))
    ensures Calm(Next(s, e)) <==> !Leaves(s, e)
  {
    hide Inv;
    var s' := Next(s, e);
    assert TasksDone(s') <==> s.running == 0;
    assert forall c :: Unaware(s', c) == Unaware(s, c);
  }

  lemma OtherLeaves(s: State, e: Event)
    requires Calm(s) && Enabled(s, e) && Inv(Next(s, e))
    requires e.DetachTask? || e.Finish? || e.Unpause? || e.Stop? || e.Recreate?
    ensures Calm(Next(s, e)) && !Leaves(s, e)
  {
    hide Inv;
    var s' := Next(s, e);
    assert TasksDone(s') ==> TasksDone(s);
    assert forall c :: Unaware(s', c) == Unaware(s, c);
  }

  /** In every run in which no event leaves a thread asleep, nobody is, with any number of threads that wait. */
  lemma {:induction false} WaitersAreNotified(init: State, es: seq<Event>)
    requires Initial(init)
    requires forall n :: 0 <= n < |es| ==> LeavesNobody(init, es, n)
    ensures Calm(Play(init, es))
  {
    if es == [] {
      InitialInv(init);
    } else {
      var front := es[..|es| - 1];
      forall n | 0 <= n < |front| ensures LeavesNobody(init, front, n) {
        assert LeavesNobody(init, es, n) && front[..n] == es[..n];
      }
      WaitersAreNotified(init, front);
      assert LeavesNobody(init, es, |es| - 1);
      if Enabled(Play(init, front), es[|es| - 1]) { StepLeaves(Play(init, front), es[|es| - 1]); }
    }
  }

  /** Event `n` of the run leaves nobody asleep. */
  ghost predicate LeavesNobody(init: State, es: seq<Event>, n: nat)
    requires n < |es|
  {
    Enabled(Play(init, es[..n]), es[n]) ==> !Leaves(Play(init, es[..n]), es[n])
  }

  // ----- threads that stay asleep

  /** Thread `c` sleeps without having been notified, although there is nothing to wait for. */
  ghost predicate Stranded(s: State, c: nat)
  {
    Inv(s) && Unaware(s, c) && TasksDone(s)
  }

  /** The event brings a task or a worker back into play, or gets thread `c` on by itself. */
  predicate Stirs(e: Event, c: nat)
  {
    e.DetachTask? || e.Unpause? || e.Recreate? || e == WakeUp(c) || e == TimeOut(c)
  }

  lemma StrandedStep(s: State, c: nat, e: Event)
    requires Stranded(s, c) && Enabled(s, e) && !Stirs(e, c)
    ensures Stranded(Next(s, e), c)
  {
    hide Inv, Lower;
    StepInv(s, e);
    NobodyBusy(s);
    if e.Work? { assert Next(s, e) == Choose(s, e.w, e.k); }
  }

  lemma NobodyBusy(s: State)
    requires Inv(s) && s.running == 0
    ensures forall w :: 0 <= w < |s.workers| ==> s.workers[w] == Parked || s.workers[w] == Exited
  {
    SumBounds(s.workers, Busy);
    forall w | 0 <= w < |s.workers| ensures s.workers[w] == Parked || s.workers[w] == Exited {
      assert Busy(s.workers[w]) <= 0;
    }
  }

  /** No worker ever wakes such a thread, whatever else is called, until a task or new workers come. */
  lemma {:induction false} StrandedStays(s: State, c: nat, es: seq<Event>)
    requires Stranded(s, c)
    requires forall n :: 0 <= n < |es| ==> !Stirs(es[n], c)
    ensures Stranded(Play(s, es), c)
  {
    if es != [] {
      var front := es[..|es| - 1];
      StrandedStays(s, c, front);
      if Enabled(Play(s, front), es[|es| - 1]) { StrandedStep(Play(s, front), c, es[|es| - 1]); }
    }
  }

  /** One worker, and `n` threads that may wait. */
  function Fresh(n: nat): State
  {
    State([], 1, false, false, false, [Ready], seq(n, _ => Out), 0, multiset{}, multiset{})
  }

  /** Purging strands the only thread that waits: its task is purged, and nobody notifies it. */
  lemma PurgeStrandsTheWaiter()
    ensures Initial(Fresh(1)) && Stranded(Play(Fresh(1), [Work(0, 0), DetachTask, Wait(0)] + [Purge]), 0)
  {
    hide Step, Inv, Runs.Play;
    var es := [Work(0, 0), DetachTask, Wait(0)];
    InitialInv(Fresh(1));
    PlayInv(Fresh(1), es + [Purge]);
    Runs.PlayThree(Step, Fresh(1), Work(0, 0), DetachTask, Wait(0));
    Runs.PlayConcat(Step, Fresh(1), es, [Purge]);
    var s3 := SleepBesideATask(Fresh(1));
    PurgedThen(s3);
  }

  lemma PurgedThen(s: State)
    ensures Play(s, [Purge]) == s.(tasks := [], purged := s.purged + multiset(s.tasks))
  {
    Runs.PlayOne(Step, s, Purge);
  }

  lemma SleepBesideATask(s: State) returns (s': State)
    requires s.workers == [Ready] && s.waiters == [Out] && s.tasks == [] && s.running == 1 && s.submitted == 0
    requires !s.paused && !s.stop && !s.waiting
    ensures s' == Step(Step(Step(s, Work(0, 0)), DetachTask), Wait(0))
    ensures s' == s.(workers := [Parked], running := 0, tasks := [0], submitted := 1,
                     waiting := true, waiters := [Sleeping(false)])
  {
    var s1 := Step(s, Work(0, 0));
    assert s1 == s.(workers := [Parked], running := 0);
    var s2 := Step(s1, DetachTask);
    assert s2 == s1.(tasks := [0], submitted := 1);
    s' := Step(s2, Wait(0));
    assert s' == s2.(waiting := true, waiters := [Sleeping(false)]);
  }

  /** A thread whose time is out strands another: the worker that finishes the last task believes that nobody waits. */
  lemma TimeOutStrandsAnother()
    ensures Initial(Fresh(2))
    ensures Stranded(Play(Fresh(2), [DetachTask, Work(0, 0), Wait(0), Wait(1), TimeOut(0), Finish(0), Work(0, 0)]), 1)
  {
    hide Step;
    var es, fs := [DetachTask, Work(0, 0), Wait(0), Wait(1), TimeOut(0)], [Finish(0), Work(0, 0)];
    assert [DetachTask, Work(0, 0), Wait(0), Wait(1), TimeOut(0), Finish(0), Work(0, 0)] == es + fs;
    InitialInv(Fresh(2));
    PlayInv(Fresh(2), es + fs);
    Runs.PlayConcat(Step, Fresh(2), es, fs);
    Runs.PlayFive(Step, Fresh(2), DetachTask, Work(0, 0), Wait(0), Wait(1), TimeOut(0));
    var s3 := RunATask(Fresh(2));
    var s5 := OneTimesOut(s3);
    Runs.PlayFirst(Step, s5, fs);
    Runs.PlayFirst(Step, Step(s5, Finish(0)), [Work(0, 0)]);
    var s7 := NobodyWaits(s5);
    assert fs[1..] == [Work(0, 0)] && fs[1..][1..] == [];
    assert Play(Fresh(2), es + fs) == s7;
  }

  lemma RunATask(s: State) returns (s': State)
    requires s.workers == [Ready] && s.waiters == [Out, Out] && s.tasks == [] && s.running == 1 && s.submitted == 0
    requires !s.paused && !s.stop && !s.waiting
    ensures s' == Step(Step(s, DetachTask), Work(0, 0))
    ensures s' == s.(workers := [Running(0)], submitted := 1)
  {
    var s1 := Step(s, DetachTask);
    assert s1 == s.(tasks := [0], submitted := 1);
    s' := Step(s1, Work(0, 0));
    assert s'.tasks == [];
  }

  lemma OneTimesOut(s: State) returns (s': State)
    requires s.waiters == [Out, Out] && s.running == 1
    ensures s' == Step(Step(Step(s, Wait(0)), Wait(1)), TimeOut(0))
    ensures s' == s.(waiters := [Out, Sleeping(false)], waiting := false)
  {
    var s1 := Step(s, Wait(0));
    assert s1 == s.(waiting := true, waiters := [Sleeping(false), Out]);
    var s2 := Step(s1, Wait(1));
    assert s2 == s1.(waiters := [Sleeping(false), Sleeping(false)]);
    s' := Step(s2, TimeOut(0));
    assert s'.waiters == [Out, Sleeping(false)];
  }

  lemma NobodyWaits(s: State) returns (s': State)
    requires s.workers == [Running(0)] && s.running == 1 && s.tasks == [] && !s.waiting && !s.stop
    ensures s' == Step(Step(s, Finish(0)), Work(0, 0))
    ensures s' == s.(workers := [Parked], running := 0, finished := s.finished + multiset{0})
  {
    var s1 := Step(s, Finish(0));
    assert s1 == s.(workers := [Ready], finished := s.finished + multiset{0});
    s' := Step(s1, Work(0, 0));
    assert s'.workers == [Parked];
  }
}
