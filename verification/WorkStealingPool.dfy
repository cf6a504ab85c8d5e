/**
 The work-stealing pool: any number of workers, each with its own deque and binary semaphore, and any
 number of threads that enqueue tasks, clear them, or wait for them to finish.

 Each step is one atomic operation, or one critical section of a deque.  A task that enqueues others
 is another of those threads.  Releasing a semaphore that is already released leaves it so.  Waiting
 on the completion signal compares it and goes to sleep in one step; notifying one thread wakes one
 of those asleep, whichever, and it compares again.  Runs end where the destructor begins to stop the
 workers.

 `accepted`, `invoked`, `cleared` and `counted` are history variables.
 */
module WorkStealingPool {
  import opened Counting
  import opened Sequences
  import opened StealingQueue
  import Runs

  datatype Worker =
    | Acquire
    | Pop
    | Took(task: nat, stolen: bool)       // unassigned_tasks_.fetch_sub is next
    | Invoke(task: nat, stolen: bool)
    | Finish(stolen: bool)                // in_flight_tasks_.fetch_sub is next
    | Steal(j: nat)
    | CheckUnassigned
    | Rotate
    | CheckInFlight
    | SetComplete
    | NotifyOne                           // threads_complete_signal_.notify_one is next

  datatype Client =
    | Idle
    // enqueue_task
    | CountUnassigned(i: nat, task: nat)
    | CountInFlight(i: nat, task: nat)
    | ResetSignal(i: nat, task: nat)
    | Push(i: nat, task: nat)
    | Signal(i: nat)
    // clear_tasks
    | Clear(i: nat, removed: nat)
    | ClearInFlight(removed: nat)
    | ClearUnassigned(removed: nat)
    // wait_for_tasks
    | Wait
    | Compare                             // threads_complete_signal_.wait(false) looks at the signal
    | Sleep                               // and has found it false

  datatype State = State(
    unassigned: int,
    inFlight: int,
    complete: bool,                 // threads_complete_signal_
    priority: seq<nat>,
    deques: seq<seq<nat>>,
    signals: seq<bool>,
    workers: seq<Worker>,
    clients: seq<Client>,
    accepted: nat,                  // tasks are numbered in the order in which they are accepted
    invoked: multiset<nat>,
    cleared: multiset<nat>,
    counted: bool)                  // in_flight_tasks_ has been raised at least once

  datatype Event =
    | Work(i: nat)                  // worker i performs its next operation
    | Notify(i: nat, c: nat)        // worker i notifies, and thread c wakes, if any thread is asleep
    | Enqueue(c: nat)
    | ClearTasks(c: nat)
    | WaitForTasks(c: nat)
    | Go(c: nat)                    // thread c performs its next operation, or wakes for no reason

  ghost predicate Shape(s: State)
  {
    |s.deques| == |s.signals| == |s.workers|
  }

  ghost predicate Initial(s: State)
  {
    && Shape(s) && s.unassigned == 0 && s.inFlight == 0 && !s.complete && s.priority == Upto(|s.workers|)
    && (forall i :: 0 <= i < |s.workers| ==> s.deques[i] == [] && !s.signals[i] && s.workers[i] == Acquire)
    && (forall c :: 0 <= c < |s.clients| ==> s.clients[c] == Idle)
    && s.accepted == 0 && s.invoked == multiset{} && s.cleared == multiset{} && !s.counted
  }

  predicate Asleep(s: State, c: nat)
  {
    c < |s.clients| && s.clients[c] == Sleep
  }

  predicate NobodySleeps(s: State)
  {
    forall c :: 0 <= c < |s.clients| ==> s.clients[c] != Sleep
  }

  predicate CanWork(s: State, i: nat)
  {
    |s.deques| == |s.signals| == |s.workers| && i < |s.workers| && (s.workers[i] == Acquire ==> s.signals[i])
  }

  predicate Enabled(s: State, e: Event)
  {
    && |s.deques| == |s.signals| == |s.workers|
    && match e
       case Work(i) => CanWork(s, i) && s.workers[i] != NotifyOne
       case Notify(i, c) =>
         i < |s.workers| && s.workers[i] == NotifyOne && (Asleep(s, c) || NobodySleeps(s))
       case Enqueue(c) => c < |s.clients| && s.clients[c] == Idle
       case ClearTasks(c) => c < |s.clients| && s.clients[c] == Idle
       case WaitForTasks(c) => c < |s.clients| && s.clients[c] == Idle
       case Go(c) => c < |s.clients| && s.clients[c] != Idle
  }

  function SetWorker(s: State, i: nat, w: Worker): State
    requires i < |s.workers|
  {
    s.(workers := s.workers[i := w])
  }

  function SetClient(s: State, c: nat, p: Client): State
    requires c < |s.clients|
  {
    s.(clients := s.clients[c := p])
  }

  /** After a search of one's own deque: steal from the next one, if there is another worker. */
  function StealFrom(s: State, j: nat): Worker
  {
    if j < |s.workers| then Steal(j) else CheckUnassigned
  }

  function NextOfWorker(s: State, i: nat): State
    requires CanWork(s, i)
  {
    match s.workers[i]
    case Acquire => SetWorker(s, i, Pop).(signals := s.signals[i := false])
    case Pop =>
      if s.deques[i] == [] then SetWorker(s, i, StealFrom(s, 1))
      else SetWorker(s, i, Took(s.deques[i][0], false)).(deques := s.deques[i := s.deques[i][1..]])
    case Took(task, stolen) => SetWorker(s, i, Invoke(task, stolen)).(unassigned := s.unassigned - 1)
    case Invoke(task, stolen) => SetWorker(s, i, Finish(stolen)).(invoked := s.invoked + multiset{task})
    case Finish(stolen) => SetWorker(s, i, if stolen then CheckUnassigned else Pop).(inFlight := s.inFlight - 1)
    case Steal(j) =>
      var index := (i + j) % |s.workers|;
      var d := s.deques[index];
      if d == [] then SetWorker(s, i, StealFrom(s, j + 1))
      else SetWorker(s, i, Took(d[|d| - 1], true)).(deques := s.deques[index := d[..|d| - 1]])
    case CheckUnassigned => SetWorker(s, i, if s.unassigned > 0 then Pop else Rotate)
    case Rotate => SetWorker(s, i, CheckInFlight).(priority := RotatedToFront(s.priority, i))
    case CheckInFlight => SetWorker(s, i, if s.inFlight == 0 then SetComplete else Acquire)
    case SetComplete => SetWorker(s, i, NotifyOne).(complete := true)
    case NotifyOne => SetWorker(s, i, Acquire)
  }

  /** Where thread `c` goes. */
  function ClientAfter(s: State, c: nat): Client
    requires c < |s.clients|
  {
    match s.clients[c]
    case Idle => Idle
    case CountUnassigned(i, task) => CountInFlight(i, task)
    case CountInFlight(i, task) => if s.inFlight == 0 then ResetSignal(i, task) else Push(i, task)
    case ResetSignal(i, task) => Push(i, task)
    case Push(i, task) => if i < |s.deques| then Signal(i) else Push(i, task)
    case Signal(_) => Idle
    case Clear(i, removed) => if i < |s.deques| then Clear(i + 1, removed + |s.deques[i]|) else ClearInFlight(removed)
    case ClearInFlight(removed) => ClearUnassigned(removed)
    case ClearUnassigned(_) => Idle
    case Wait => if s.inFlight > 0 then Compare else Idle
    case Compare => if s.complete then Wait else Sleep
    case Sleep => Compare
  }

  /** What its operation does. */
  function ClientEffect(s: State, c: nat): State
    requires c < |s.clients|
  {
    match s.clients[c]
    case Idle => s
    case CountUnassigned(_, _) => s.(unassigned := s.unassigned + 1)
    case CountInFlight(_, _) => s.(inFlight := s.inFlight + 1, counted := true)
    case ResetSignal(_, _) => s.(complete := false)
    case Push(i, task) => if i < |s.deques| then s.(deques := s.deques[i := s.deques[i] + [task]]) else s
    case Signal(i) => if i < |s.signals| then s.(signals := s.signals[i := true]) else s
    case Clear(i, _) =>
      if i < |s.deques| then s.(deques := s.deques[i := []], cleared := s.cleared + multiset(s.deques[i])) else s
    case ClearInFlight(removed) => s.(inFlight := s.inFlight - removed)
    case ClearUnassigned(removed) => s.(unassigned := s.unassigned - removed)
    case Wait => s
    case Compare => s
    case Sleep => s
  }

  function NextOfClient(s: State, c: nat): State
    requires c < |s.clients|
  {
    ClientEffect(s, c).(clients := s.clients[c := ClientAfter(s, c)])
  }

  /** `notify_one`: thread `c` wakes, if it is asleep. */
  function NextOfNotify(s: State, i: nat, c: nat): State
    requires CanWork(s, i)
  {
    var s' := NextOfWorker(s, i);
    if c < |s'.clients| && s'.clients[c] == Sleep then NextOfClient(s', c) else s'
  }

  function Next(s: State, e: Event): State
    requires Enabled(s, e)
  {
    match e
    case Work(i) => NextOfWorker(s, i)
    case Notify(i, c) => NextOfNotify(s, i, c)
    case Enqueue(c) =>
      if s.priority == [] then s
      else SetClient(s, c, CountUnassigned(s.priority[0], s.accepted)).(
             priority := RotatedToBack(s.priority), accepted := s.accepted + 1)
    case ClearTasks(c) => SetClient(s, c, Clear(0, 0))
    case WaitForTasks(c) => SetClient(s, c, Wait)
    case Go(c) => NextOfClient(s, c)
  }

  // ----- what is counted, and where tasks are

  function Length(d: seq<nat>): int { |d| }

  /** What the worker, or the thread, accounts for in `unassigned_tasks_`. */
  function WorkerUnassigned(w: Worker): int { if w.Took? then 1 else 0 }

  function ClientUnassigned(p: Client): int
  {
    match p
    case CountInFlight(_, _) => 1
    case ResetSignal(_, _) => 1
    case Push(_, _) => 1
    case Clear(_, removed) => removed
    case ClearInFlight(removed) => removed
    case ClearUnassigned(removed) => removed
    case _ => 0
  }

  /** What the worker, or the thread, accounts for in `in_flight_tasks_`. */
  function WorkerInFlight(w: Worker): int { if w.Took? || w.Invoke? || w.Finish? then 1 else 0 }

  function ClientInFlight(p: Client): int
  {
    match p
    case ResetSignal(_, _) => 1
    case Push(_, _) => 1
    case Clear(_, removed) => removed
    case ClearInFlight(removed) => removed
    case _ => 0
  }

  function Queued(s: State): int { Sum(s.deques, Length) }

  /** The task in a worker's hands, and in a thread's. */
  function WorkerBag(w: Worker): multiset<nat>
  {
    if w.Took? || w.Invoke? then multiset{w.task} else multiset{}
  }

  function ClientBag(p: Client): multiset<nat>
  {
    if p.CountUnassigned? || p.CountInFlight? || p.ResetSignal? || p.Push? then multiset{p.task} else multiset{}
  }

  // How often task `t` is in a deque, in a worker's hands, in a thread's hands.

  function InDeque(t: nat): seq<nat> -> int { (d: seq<nat>) => multiset(d)[t] }

  function InWorker(t: nat): Worker -> int { (w: Worker) => WorkerBag(w)[t] }

  function InClient(t: nat): Client -> int { (p: Client) => ClientBag(p)[t] }

  /** The two counters count what they should. */
  ghost predicate Counts(s: State)
  {
    && s.unassigned == Queued(s) + Sum(s.workers, WorkerUnassigned) + Sum(s.clients, ClientUnassigned)
    && s.inFlight == Queued(s) + Sum(s.workers, WorkerInFlight) + Sum(s.clients, ClientInFlight)
  }

  /** In how many places task `t` is: a deque, somebody's hands, or among those invoked or cleared. */
  function Places(s: State, t: nat): int
  {
    Sum(s.deques, InDeque(t)) + Sum(s.workers, InWorker(t)) + Sum(s.clients, InClient(t)) + s.invoked[t] + s.cleared[t]
  }

  /** Every accepted task is in exactly one place, and no other task is anywhere. */
  ghost predicate Placed(s: State)
  {
    forall t: nat :: Places(s, t) == if t < s.accepted then 1 else 0
  }

  /** The deque that a step of worker `i` looks into. */
  function Victim(s: State, i: nat): nat
    requires i < |s.workers|
  {
    if s.workers[i].Steal? then (i + s.workers[i].j) % |s.workers| else i
  }

  /** A step of worker `i` changes that worker, and deque `k` at most. */
  ghost predicate WorkerChanges(s: State, s': State, i: nat, k: nat)
  {
    && |s.deques| == |s.signals| == |s.workers|
    && i < |s.workers| && i < |s'.workers| && s'.workers == s.workers[i := s'.workers[i]] && s'.clients == s.clients
    && k < |s.deques| && k < |s'.deques| && s'.deques == s.deques[k := s'.deques[k]] && |s'.signals| == |s.signals|
    && s'.accepted == s.accepted
  }

  /** The counters and histories change by what the worker and the deque do. */
  ghost predicate WorkerStep(s: State, s': State, i: nat, k: nat)
  {
    && WorkerChanges(s, s', i, k)
    && var w, w', d, d' := s.workers[i], s'.workers[i], s.deques[k], s'.deques[k];
       && s'.unassigned - s.unassigned == |d'| - |d| + WorkerUnassigned(w') - WorkerUnassigned(w)
       && s'.inFlight - s.inFlight == |d'| - |d| + WorkerInFlight(w') - WorkerInFlight(w)
       && (if d == d' then WorkerBag(w) + s.invoked == WorkerBag(w') + s'.invoked
           else s'.invoked == s.invoked && multiset(d) + WorkerBag(w) == multiset(d') + WorkerBag(w'))
       && s'.cleared == s.cleared
  }

  lemma IsWorkerStep(s: State, i: nat)
    requires CanWork(s, i)
    ensures WorkerStep(s, NextOfWorker(s, i), i, Victim(s, i))
  {
    if s.workers[i].Pop? || s.workers[i].Steal? { IsTakeStep(s, i); } else { IsQuietStep(s, i); }
  }

  /** Taking a task from a deque, one's own or another's, moves it into the worker's hands. */
  lemma IsTakeStep(s: State, i: nat)
    requires CanWork(s, i) && (s.workers[i].Pop? || s.workers[i].Steal?)
    ensures WorkerStep(s, NextOfWorker(s, i), i, Victim(s, i))
  {
    hide NextOfWorker;
    var k := Victim(s, i);
    var d := s.deques[k];
    if d == [] { IsVainStep(s, i); } else { TakeEffect(s, i); SplitEnds(d); }
  }

  lemma TakeEffect(s: State, i: nat)
    requires CanWork(s, i) && (s.workers[i].Pop? || s.workers[i].Steal?) && s.deques[Victim(s, i)] != []
    ensures var s', k, pop := NextOfWorker(s, i), Victim(s, i), s.workers[i].Pop?;
      var d := s.deques[k];
      s' == s.(workers := s.workers[i := Took(if pop then d[0] else d[|d| - 1], !pop)],
               deques := s.deques[k := if pop then d[1..] else d[..|d| - 1]])
  {}

  lemma SplitEnds(d: seq<nat>)
    requires d != []
    ensures multiset(d) + multiset{} == multiset(d[1..]) + multiset{d[0]}
    ensures multiset(d) + multiset{} == multiset(d[..|d| - 1]) + multiset{d[|d| - 1]}
  {
    assert d == [d[0]] + d[1..];
    assert d == d[..|d| - 1] + [d[|d| - 1]];
  }

  lemma IsVainStep(s: State, i: nat)
    requires CanWork(s, i) && (s.workers[i].Pop? || s.workers[i].Steal?) && s.deques[Victim(s, i)] == []
    ensures WorkerStep(s, NextOfWorker(s, i), i, Victim(s, i))
  {
    assert NextOfWorker(s, i).deques == s.deques;
  }

  lemma IsQuietStep(s: State, i: nat)
    requires CanWork(s, i) && !s.workers[i].Pop? && !s.workers[i].Steal?
    ensures WorkerStep(s, NextOfWorker(s, i), i, Victim(s, i))
  {
    hide NextOfWorker, WorkerUnassigned, WorkerInFlight, WorkerBag;
    QuietChanges(s, i);
    QuietCounts(s, i);
    QuietBag(s, i);
  }

  lemma QuietChanges(s: State, i: nat)
    requires CanWork(s, i) && !s.workers[i].Pop? && !s.workers[i].Steal?
    ensures var s' := NextOfWorker(s, i);
      WorkerChanges(s, s', i, i) && s'.deques == s.deques && s'.cleared == s.cleared
  {
    hide RotatedToFront;
    assert NextOfWorker(s, i).deques == s.deques;
  }

  lemma QuietCounts(s: State, i: nat)
    requires CanWork(s, i) && !s.workers[i].Pop? && !s.workers[i].Steal? && i < |NextOfWorker(s, i).workers|
    ensures var s', w, w' := NextOfWorker(s, i), s.workers[i], NextOfWorker(s, i).workers[i];
      && s'.unassigned - s.unassigned == WorkerUnassigned(w') - WorkerUnassigned(w)
      && s'.inFlight - s.inFlight == WorkerInFlight(w') - WorkerInFlight(w)
  {
    hide RotatedToFront;
  }

  lemma QuietBag(s: State, i: nat)
    requires CanWork(s, i) && !s.workers[i].Pop? && !s.workers[i].Steal? && i < |NextOfWorker(s, i).workers|
    ensures WorkerBag(s.workers[i]) + s.invoked
         == WorkerBag(NextOfWorker(s, i).workers[i]) + NextOfWorker(s, i).invoked
  {
    hide RotatedToFront;
  }

  lemma WorkerStepKeeps(s: State, s': State, i: nat, k: nat)
    requires WorkerStep(s, s', i, k) && Counts(s) && Placed(s)
    ensures Counts(s') && Placed(s')
  {
    SumUpdate(s.workers, i, s'.workers[i], WorkerUnassigned);
    SumUpdate(s.workers, i, s'.workers[i], WorkerInFlight);
    SumUpdate(s.deques, k, s'.deques[k], Length);
    forall t: nat ensures Places(s', t) == if t < s'.accepted then 1 else 0 {
      assert (WorkerBag(s.workers[i]) + s.invoked)[t] == WorkerBag(s.workers[i])[t] + s.invoked[t];
      assert (multiset(s.deques[k]) + WorkerBag(s.workers[i]))[t]
          == multiset(s.deques[k])[t] + WorkerBag(s.workers[i])[t];
      SumUpdate(s.workers, i, s'.workers[i], InWorker(t));
      SumUpdate(s.deques, k, s'.deques[k], InDeque(t));
      assert Places(s, t) == if t < s.accepted then 1 else 0;
    }
  }

  /** A step of thread `c` changes that thread, and deque `k`, if there is such a deque. */
  ghost predicate ClientChanges(s: State, s': State, c: nat, k: nat)
  {
    && |s.deques| == |s.signals| == |s.workers| && s'.workers == s.workers && |s'.signals| == |s.signals|
    && c < |s.clients| && c < |s'.clients| && s'.clients == s.clients[c := s'.clients[c]]
    && (if k < |s.deques| then k < |s'.deques| && s'.deques == s.deques[k := s'.deques[k]] else s'.deques == s.deques)
    && s.accepted <= s'.accepted <= s.accepted + 1
  }

  function At(deques: seq<seq<nat>>, k: nat): seq<nat>
  {
    if k < |deques| then deques[k] else []
  }

  /** The task accepted in this step, if any. */
  function Accepts(s: State, s': State): multiset<nat>
  {
    if s'.accepted == s.accepted then multiset{} else multiset{s.accepted}
  }

  ghost predicate ClientStep(s: State, s': State, c: nat, k: nat)
  {
    && ClientChanges(s, s', c, k)
    && var p, p', d, d' := s.clients[c], s'.clients[c], At(s.deques, k), At(s'.deques, k);
       && s'.unassigned - s.unassigned == |d'| - |d| + ClientUnassigned(p') - ClientUnassigned(p)
       && s'.inFlight - s.inFlight == |d'| - |d| + ClientInFlight(p') - ClientInFlight(p)
       && (if k < |s.deques| then
             && s'.accepted == s.accepted
             && multiset(d) + ClientBag(p) + s.cleared == multiset(d') + ClientBag(p') + s'.cleared
           else s'.cleared == s.cleared && ClientBag(p') == ClientBag(p) + Accepts(s, s'))
       && s'.invoked == s.invoked
  }

  /** The deque that a step of thread `c` changes, if any. */
  function Target(s: State, c: nat): nat
    requires c < |s.clients|
  {
    match s.clients[c]
    case Push(i, _) => i
    case Clear(i, _) => i
    case _ => |s.deques|
  }

  lemma IsClientStep(s: State, c: nat)
    requires Enabled(s, Go(c))
    ensures ClientStep(s, NextOfClient(s, c), c, Target(s, c))
  {
    hide NextOfClient, ClientStep;
    match s.clients[c]
    case Push(_, _) => IsPushStep(s, c);
    case Clear(_, _) => IsClearStep(s, c);
    case CountUnassigned(_, _) => IsPlainStep(s, c);
    case CountInFlight(_, _) => IsPlainStep(s, c);
    case ResetSignal(_, _) => IsPlainStep(s, c);
    case Signal(_) => IsPlainStep(s, c);
    case ClearInFlight(_) => IsPlainStep(s, c);
    case ClearUnassigned(_) => IsPlainStep(s, c);
    case Wait => IsPlainStep(s, c);
    case Compare => IsPlainStep(s, c);
    case Sleep => IsPlainStep(s, c);
  }

  lemma IsPushStep(s: State, c: nat)
    requires Enabled(s, Go(c)) && s.clients[c].Push?
    ensures ClientStep(s, NextOfClient(s, c), c, Target(s, c))
  {
    var k, s' := Target(s, c), NextOfClient(s, c);
    if k < |s.deques| {
      assert s'.deques[k] == s.deques[k] + [s.clients[c].task];
      assert multiset(s'.deques[k]) == multiset(s.deques[k]) + multiset{s.clients[c].task};
    }
  }

  lemma IsClearStep(s: State, c: nat)
    requires Enabled(s, Go(c)) && s.clients[c].Clear?
    ensures ClientStep(s, NextOfClient(s, c), c, Target(s, c))
  {
    var k, s' := Target(s, c), NextOfClient(s, c);
    if k < |s.deques| { assert s'.deques[k] == []; }
  }

  lemma IsPlainStep(s: State, c: nat)
    requires Enabled(s, Go(c))
    requires !s.clients[c].Push? && !s.clients[c].Clear?
    ensures ClientStep(s, NextOfClient(s, c), c, Target(s, c))
  {
    hide NextOfClient, Enabled, ClientBag, ClientUnassigned, ClientInFlight;
    PlainChanges(s, c);
    PlainCounts(s, c);
    PlainBag(s, c);
  }

  lemma PlainChanges(s: State, c: nat)
    requires Enabled(s, Go(c))
    requires !s.clients[c].Push? && !s.clients[c].Clear?
    ensures var s' := NextOfClient(s, c);
      && ClientChanges(s, s', c, Target(s, c)) && s'.deques == s.deques
      && s'.cleared == s.cleared && s'.invoked == s.invoked && s'.accepted == s.accepted
  {}

  lemma PlainCounts(s: State, c: nat)
    requires Enabled(s, Go(c)) && c < |NextOfClient(s, c).clients|
    requires !s.clients[c].Push? && !s.clients[c].Clear?
    ensures var s', p, p' := NextOfClient(s, c), s.clients[c], NextOfClient(s, c).clients[c];
      && s'.unassigned - s.unassigned == ClientUnassigned(p') - ClientUnassigned(p)
      && s'.inFlight - s.inFlight == ClientInFlight(p') - ClientInFlight(p)
  {
    var p := s.clients[c];
    assert ClientUnassigned(ClientAfter(s, c)) - ClientUnassigned(p) ==
      if p.CountUnassigned? then 1 else if p.ClearUnassigned? then 0 - p.removed else 0;
    assert ClientInFlight(ClientAfter(s, c)) - ClientInFlight(p) ==
      if p.CountInFlight? then 1 else if p.ClearInFlight? then 0 - p.removed else 0;
    hide ClientAfter;
  }

  lemma PlainBag(s: State, c: nat)
    requires Enabled(s, Go(c)) && c < |NextOfClient(s, c).clients|
    requires !s.clients[c].Push? && !s.clients[c].Clear?
    ensures ClientBag(NextOfClient(s, c).clients[c]) == ClientBag(s.clients[c])
  {}

  lemma IsCallStep(s: State, e: Event)
    requires Enabled(s, e) && (e.Enqueue? || e.ClearTasks? || e.WaitForTasks?)
    ensures ClientStep(s, Next(s, e), e.c, |s.deques|)
  {
    hide RotatedToBack, NextOfClient, NextOfWorker;
    if e.Enqueue? { IsEnqueueCall(s, e); }
  }

  lemma IsEnqueueCall(s: State, e: Event)
    requires Enabled(s, e) && e.Enqueue?
    ensures ClientStep(s, Next(s, e), e.c, |s.deques|)
  {
    hide RotatedToBack, NextOfClient, NextOfWorker;
    if s.priority != [] {
      var s', pc := Next(s, e), CountUnassigned(s.priority[0], s.accepted);
      assert s' == s.(clients := s.clients[e.c := pc], priority := RotatedToBack(s.priority), accepted := s.accepted + 1);
      assert s'.clients[e.c] == pc && ClientBag(pc) == multiset{} + multiset{s.accepted};
    } else {
      assert Next(s, e) == s && s.clients[e.c := Idle] == s.clients;
    }
  }

  lemma ClientStepKeeps(s: State, s': State, c: nat, k: nat)
    requires ClientStep(s, s', c, k) && Counts(s) && Placed(s)
    ensures Counts(s') && Placed(s')
  {
    hide ClientBag;
    SumUpdate(s.clients, c, s'.clients[c], ClientUnassigned);
    SumUpdate(s.clients, c, s'.clients[c], ClientInFlight);
    if k < |s.deques| { SumUpdate(s.deques, k, s'.deques[k], Length); }
    forall t: nat ensures Places(s', t) == if t < s'.accepted then 1 else 0 {
      SumUpdate(s.clients, c, s'.clients[c], InClient(t));
      assert (ClientBag(s.clients[c]) + Accepts(s, s'))[t] == ClientBag(s.clients[c])[t] + Accepts(s, s')[t];
      assert (multiset(At(s.deques, k)) + ClientBag(s.clients[c]) + s.cleared)[t]
          == multiset(At(s.deques, k))[t] + ClientBag(s.clients[c])[t] + s.cleared[t];
      if k < |s.deques| { SumUpdate(s.deques, k, s'.deques[k], InDeque(t)); }
      assert Places(s, t) == if t < s.accepted then 1 else 0;
    }
  }

  // ----- signals

  /** The worker is between being signalled and finding no unassigned task left. */
  predicate Draining(w: Worker)
  {
    !w.Acquire? && !w.Rotate? && !w.CheckInFlight? && !w.SetComplete? && !w.NotifyOne?
  }

  /** Thread `c` is about to signal worker `i`. */
  predicate Signalling(s: State, c: nat, i: nat)
  {
    c < |s.clients| && s.clients[c] == Signal(i)
  }

  /** Worker `i` is, or will be, draining. */
  ghost predicate Alerted(s: State, i: nat)
    requires Shape(s) && i < |s.workers|
  {
    s.signals[i] || Draining(s.workers[i]) || exists c :: Signalling(s, c, i)
  }

  ghost predicate SomebodyAlerted(s: State)
    requires Shape(s)
  {
    exists i :: 0 <= i < |s.workers| && Alerted(s, i)
  }

  /** A worker with something in its deque is alerted; somebody is while a thread is clearing tasks away. */
  ghost predicate Alarms(s: State)
    requires Shape(s)
  {
    && (forall i :: 0 <= i < |s.workers| && s.deques[i] != [] ==> Alerted(s, i))
    && (forall c :: 0 <= c < |s.clients| && Removed(s.clients[c]) > 0 ==> SomebodyAlerted(s))
  }

  /** Tasks that the thread has removed and still accounts for in `unassigned_tasks_`. */
  function Removed(p: Client): int
  {
    if p.Clear? || p.ClearInFlight? || p.ClearUnassigned? then p.removed else 0
  }

  /** The worker has yet to look at `in_flight_tasks_`, or has seen that it is 0. */
  predicate WillReport(w: Worker)
  {
    !w.Acquire? && !w.NotifyOne?
  }

  ghost predicate SomebodyReports(s: State)
    requires Shape(s)
  {
    SomebodyAlerted(s) || exists i :: 0 <= i < |s.workers| && WillReport(s.workers[i])
  }

  /** With nothing in flight, the completion signal is set or is going to be. */
  ghost predicate Reports(s: State)
    requires Shape(s)
  {
    s.counted && s.inFlight == 0 && !s.complete ==> SomebodyReports(s)
  }

  lemma NonNegative(s: State)
    ensures Queued(s) >= 0 && Sum(s.workers, WorkerUnassigned) >= 0 && Sum(s.clients, ClientUnassigned) >= 0
    ensures Sum(s.workers, WorkerInFlight) >= 0 && Sum(s.clients, ClientInFlight) >= 0
    ensures forall i :: 0 <= i < |s.deques| ==> |s.deques[i]| <= Queued(s)
    ensures forall i :: 0 <= i < |s.workers| ==> WorkerInFlight(s.workers[i]) <= Sum(s.workers, WorkerInFlight)
    ensures forall c :: 0 <= c < |s.clients| ==> ClientUnassigned(s.clients[c]) <= Sum(s.clients, ClientUnassigned)
    ensures forall c :: 0 <= c < |s.clients| ==> ClientInFlight(s.clients[c]) <= Sum(s.clients, ClientInFlight)
  {
    SumBounds(s.deques, Length);
    SumBounds(s.workers, WorkerUnassigned);
    SumBounds(s.workers, WorkerInFlight);
    SumBounds(s.clients, ClientUnassigned);
    SumBounds(s.clients, ClientInFlight);
  }

  /** A worker's step leaves the others alerted, and stops draining only when nothing is unassigned. */
  lemma WorkAlerted(s: State, i: nat, k: nat)
    requires CanWork(s, i) && k < |s.workers| && Alerted(s, k)
    requires k == i ==> !(s.workers[i] == CheckUnassigned && s.unassigned <= 0)
    ensures var s' := NextOfWorker(s, i); Shape(s') && k < |s'.workers| && Alerted(s', k)
  {
    hide NextOfWorker;
    var s' := NextOfWorker(s, i);
    StaysDraining(s, i);
    if !s.signals[k] && !Draining(s.workers[k]) {
      var c :| Signalling(s, c, k);
      assert Signalling(s', c, k);
    }
  }

  lemma StaysDraining(s: State, i: nat)
    requires CanWork(s, i)
    ensures var s' := NextOfWorker(s, i);
      && Shape(s') && |s'.workers| == |s.workers| && s'.clients == s.clients
      && s'.workers == s.workers[i := s'.workers[i]]
      && (forall k :: 0 <= k < |s.workers| && k != i ==> s'.signals[k] == s.signals[k])
      && (s.signals[i] ==> s'.signals[i] || Draining(s'.workers[i]))
      && (Draining(s.workers[i]) ==> Draining(s'.workers[i]) || (s.workers[i] == CheckUnassigned && s.unassigned <= 0))
  {
    hide RotatedToFront;
  }

  /** A thread that is not a worker takes the step. */
  predicate ByThread(e: Event)
  {
    !e.Work? && !e.Notify?
  }

  /** What a thread's step does to signals and deques. */
  lemma GoEffects(s: State, e: Event)
    requires Enabled(s, e) && ByThread(e)
    ensures var s', c := Next(s, e), e.c;
      && Shape(s') && s'.workers == s.workers
      && |s'.clients| == |s.clients| && s'.clients == s.clients[c := s'.clients[c]]
      && (forall k :: 0 <= k < |s.workers| ==> s'.signals[k] == (s.signals[k] || s.clients[c] == Signal(k)))
  {
    hide Next;
    GoKeepsShape(s, e);
    GoSignals(s, e);
  }

  lemma GoKeepsShape(s: State, e: Event)
    requires Enabled(s, e) && ByThread(e)
    ensures var s', c := Next(s, e), e.c;
      Shape(s') && s'.workers == s.workers && |s'.clients| == |s.clients| && s'.clients == s.clients[c := s'.clients[c]]
  {
    hide NextOfClient, NextOfWorker, RotatedToBack;
    if e.Go? { GoStepShape(s, e.c); }
  }

  lemma GoStepShape(s: State, c: nat)
    requires Enabled(s, Go(c))
    ensures var s' := NextOfClient(s, c);
      Shape(s') && s'.workers == s.workers && |s'.clients| == |s.clients| && s'.clients == s.clients[c := s'.clients[c]]
  {}

  lemma GoSignals(s: State, e: Event)
    requires Enabled(s, e) && ByThread(e) && Shape(Next(s, e)) && Next(s, e).workers == s.workers
    ensures forall k :: 0 <= k < |s.workers| ==> Next(s, e).signals[k] == (s.signals[k] || s.clients[e.c] == Signal(k))
  {}

  lemma GoFills(s: State, e: Event)
    requires Enabled(s, e) && ByThread(e) && |Next(s, e).clients| == |s.clients| && Shape(Next(s, e))
    ensures var s', c := Next(s, e), e.c;
      && (forall k :: 0 <= k < |s.workers| && k < |s'.workers| && s'.deques[k] != [] ==>
            s.deques[k] != [] || s'.clients[c] == Signal(k))
      && (Removed(s'.clients[c]) > Removed(s.clients[c]) ==>
            s.clients[c].Clear? && s.clients[c].i < |s.workers| && s.deques[s.clients[c].i] != [])
  {
    hide NextOfClient, NextOfWorker, RotatedToBack;
    if e.Go? {
      StepFills(s, e.c);
      StepRemoves(s, e.c);
    }
  }

  lemma StepFills(s: State, c: nat)
    requires Enabled(s, Go(c)) && |NextOfClient(s, c).clients| == |s.clients|
    ensures var s' := NextOfClient(s, c);
      |s'.deques| == |s.deques|
      && forall k :: 0 <= k < |s.deques| && s'.deques[k] != [] ==> s.deques[k] != [] || s'.clients[c] == Signal(k)
  {}

  lemma StepRemoves(s: State, c: nat)
    requires Enabled(s, Go(c)) && |NextOfClient(s, c).clients| == |s.clients|
    ensures Removed(NextOfClient(s, c).clients[c]) > Removed(s.clients[c]) ==>
      s.clients[c].Clear? && s.clients[c].i < |s.workers| && s.deques[s.clients[c].i] != []
  {}

  lemma GoAlerted(s: State, e: Event, k: nat)
    requires Enabled(s, e) && ByThread(e) && k < |s.workers| && Alerted(s, k)
    ensures var s' := Next(s, e); Shape(s') && k < |s'.workers| && Alerted(s', k)
  {
    hide Next;
    GoEffects(s, e);
    var s' := Next(s, e);
    if !s.signals[k] && !Draining(s.workers[k]) {
      var d :| Signalling(s, d, k);
      if d != e.c { assert Signalling(s', d, k); }
    }
  }

  lemma WorkAlarms(s: State, i: nat)
    requires CanWork(s, i) && Counts(s) && Alarms(s)
    ensures Shape(NextOfWorker(s, i)) && Alarms(NextOfWorker(s, i))
  {
    var s' := NextOfWorker(s, i);
    NonNegative(s);
    WorkShrinks(s, i);
    forall k | 0 <= k < |s'.workers| && s'.deques[k] != [] ensures Alerted(s', k) {
      assert |s.deques[k]| > 0;
      WorkAlerted(s, i, k);
    }
    forall c | 0 <= c < |s'.clients| && Removed(s'.clients[c]) > 0 ensures SomebodyAlerted(s') {
      assert ClientUnassigned(s.clients[c]) == Removed(s.clients[c]);
      var k :| 0 <= k < |s.workers| && Alerted(s, k);
      WorkAlerted(s, i, k);
    }
  }

  /** A worker adds nothing to any deque. */
  lemma WorkShrinks(s: State, i: nat)
    requires CanWork(s, i)
    ensures var s' := NextOfWorker(s, i);
      Shape(s') && |s'.workers| == |s.workers| && s'.clients == s.clients
      && forall k :: 0 <= k < |s.deques| && s'.deques[k] != [] ==> s.deques[k] != []
  {}

  lemma GoAlarms(s: State, e: Event)
    requires Enabled(s, e) && ByThread(e) && Counts(s) && Alarms(s)
    ensures Shape(Next(s, e)) && Alarms(Next(s, e))
  {
    hide Next, Alerted;
    GoEffects(s, e);
    GoFills(s, e);
    var s' := Next(s, e);
    forall k | 0 <= k < |s'.workers| && s'.deques[k] != [] ensures Alerted(s', k) {
      if s.deques[k] != [] { GoAlerted(s, e, k); } else { SignallingAlerts(s', e.c, k); }
    }
    forall c | 0 <= c < |s'.clients| && Removed(s'.clients[c]) > 0 ensures SomebodyAlerted(s') {
      if Removed(s.clients[c]) >= Removed(s'.clients[c]) {
        var k :| 0 <= k < |s.workers| && Alerted(s, k);
        GoAlerted(s, e, k);
      } else {
        GoAlerted(s, e, s.clients[c].i);
      }
    }
  }

  lemma SignallingAlerts(s: State, c: nat, k: nat)
    requires Shape(s) && k < |s.workers| && Signalling(s, c, k)
    ensures Alerted(s, k)
  {}

  lemma WorkReports(s: State, i: nat)
    requires CanWork(s, i) && Counts(s) && Reports(s)
    ensures Shape(NextOfWorker(s, i)) && Reports(NextOfWorker(s, i))
  {
    var s' := NextOfWorker(s, i);
    WorkShrinks(s, i);
    if s'.counted && s'.inFlight == 0 && !s'.complete {
      if s.workers[i].Finish? || (s.workers[i] == CheckUnassigned && s.unassigned <= 0) {
        assert WillReport(s'.workers[i]);
      } else if SomebodyAlerted(s) {
        var k :| 0 <= k < |s.workers| && Alerted(s, k);
        WorkAlerted(s, i, k);
      } else {
        var k :| 0 <= k < |s.workers| && WillReport(s.workers[k]);
        assert WillReport(s'.workers[k]);
      }
    }
  }

  /** A thread's step brings the count to zero only by clearing tasks, and resets the signal while its task counts. */
  lemma NothingNew(s: State, e: Event)
    requires Enabled(s, e) && ByThread(e) && Counts(s) && Alarms(s)
    requires var s' := Next(s, e); s'.counted && s'.inFlight == 0 && !s'.complete
    ensures (s.counted && s.inFlight == 0 && !s.complete) || SomebodyAlerted(s)
  {
    NonNegative(s);
    assert e.Go? ==> ClientInFlight(s.clients[e.c]) >= 0;
  }

  lemma GoReports(s: State, e: Event)
    requires Enabled(s, e) && ByThread(e) && Counts(s) && Alarms(s) && Reports(s)
    ensures Shape(Next(s, e)) && Reports(Next(s, e))
  {
    hide Next, Alerted;
    GoEffects(s, e);
    var s' := Next(s, e);
    if s'.counted && s'.inFlight == 0 && !s'.complete {
      NothingNew(s, e);
      if SomebodyAlerted(s) {
        var k :| 0 <= k < |s.workers| && Alerted(s, k);
        GoAlerted(s, e, k);
      } else {
        var k :| 0 <= k < |s.workers| && WillReport(s.workers[k]);
        assert WillReport(s'.workers[k]);
      }
    }
  }

  // ----- worker ids

  /** The queue of workers holds each id once, and threads only deal with such ids. */
  ghost predicate Ids(s: State)
  {
    && multiset(s.priority) == multiset(Upto(|s.workers|))
    && (forall c :: 0 <= c < |s.clients| ==> ClientIdOk(s, s.clients[c]))
    && (s.inFlight > 0 ==> s.counted)
  }

  ghost predicate ClientIdOk(s: State, p: Client)
  {
    && (p.CountUnassigned? || p.CountInFlight? || p.ResetSignal? || p.Push? || p.Signal? ==> p.i < |s.workers|)
    && (p.Compare? || p.Sleep? ==> s.counted)
  }

  lemma WorkIds(s: State, i: nat)
    requires CanWork(s, i) && Ids(s)
    ensures Ids(NextOfWorker(s, i))
  {
    var s' := NextOfWorker(s, i);
    WorkerIdKeeps(s, i);
    forall c | 0 <= c < |s'.clients| ensures ClientIdOk(s', s'.clients[c]) {
      assert ClientIdOk(s, s.clients[c]);
    }
  }

  lemma WorkerIdKeeps(s: State, i: nat)
    requires CanWork(s, i) && multiset(s.priority) == multiset(Upto(|s.workers|))
    ensures var s' := NextOfWorker(s, i);
      && multiset(s'.priority) == multiset(s.priority) && |s'.workers| == |s.workers| && s'.clients == s.clients
      && s'.counted == s.counted && s'.inFlight <= s.inFlight
  {
    hide NextOfWorker, RotatedToFront;
    assert Upto(|s.workers|)[i] == i && i in multiset(Upto(|s.workers|));
    assert i in multiset(s.priority);
    RotatingPermutes(s.priority, i);
    WorkerRotates(s, i);
  }

  lemma WorkerRotates(s: State, i: nat)
    requires CanWork(s, i)
    ensures var s' := NextOfWorker(s, i);
      && (s'.priority == s.priority || s'.priority == RotatedToFront(s.priority, i))
      && |s'.workers| == |s.workers| && s'.clients == s.clients && s'.counted == s.counted && s'.inFlight <= s.inFlight
  {
    hide RotatedToFront;
  }

  lemma GoIds(s: State, e: Event)
    requires Enabled(s, e) && ByThread(e) && Ids(s) && Counts(s)
    ensures Ids(Next(s, e))
  {
    hide Next;
    var s' := Next(s, e);
    GoEffects(s, e);
    GoIdKeeps(s, e);
    forall c | 0 <= c < |s'.clients| ensures ClientIdOk(s', s'.clients[c]) {
      assert ClientIdOk(s, s.clients[c]);
    }
  }

  lemma GoIdKeeps(s: State, e: Event)
    requires Enabled(s, e) && ByThread(e) && Ids(s) && Counts(s)
    ensures var s' := Next(s, e);
      && multiset(s'.priority) == multiset(s.priority) && (s'.inFlight > 0 ==> s'.counted) && (s.counted ==> s'.counted)
      && e.c < |s'.clients| && |s'.workers| == |s.workers| && ClientIdOk(s', s'.clients[e.c])
  {
    hide Next, RotatedToBack, Counts;
    NonNegative(s);
    assert ClientIdOk(s, s.clients[e.c]);
    if s.priority != [] {
      FirstId(s);
      RotatingPermutes(s.priority, 0);
    }
    GoRotates(s, e);
    GoKnows(s, e);
  }

  lemma GoRotates(s: State, e: Event)
    requires Enabled(s, e) && ByThread(e)
    ensures var s' := Next(s, e);
      s'.priority == s.priority || (s.priority != [] && s'.priority == RotatedToBack(s.priority))
  {
    hide RotatedToBack;
  }

  lemma GoKnows(s: State, e: Event)
    requires Enabled(s, e) && ByThread(e) && ClientIdOk(s, s.clients[e.c]) && (s.inFlight > 0 ==> s.counted)
    requires s.priority != [] ==> s.priority[0] < |s.workers|
    ensures var s' := Next(s, e);
      && (s'.inFlight > 0 ==> s'.counted) && (s.counted ==> s'.counted)
      && e.c < |s'.clients| && |s'.workers| == |s.workers| && ClientIdOk(s', s'.clients[e.c])
  {
    hide RotatedToBack, Shape, NextOfClient;
    if e.Go? { GoStepKnows(s, e.c); }
  }

  lemma GoStepKnows(s: State, c: nat)
    requires Enabled(s, Go(c)) && ClientIdOk(s, s.clients[c]) && (s.inFlight > 0 ==> s.counted)
    ensures var s' := NextOfClient(s, c);
      && (s'.inFlight > 0 ==> s'.counted) && (s.counted ==> s'.counted)
      && c < |s'.clients| && |s'.workers| == |s.workers| && ClientIdOk(s', s'.clients[c])
  {
    hide ClientAfter, ClientEffect;
    GoStepCounts(s, c);
    GoStepId(s, c);
  }

  lemma GoStepCounts(s: State, c: nat)
    requires Enabled(s, Go(c))
    ensures var s' := ClientEffect(s, c);
      s'.workers == s.workers && (s'.inFlight <= s.inFlight || s'.counted) && (s.counted ==> s'.counted)
  {}

  lemma GoStepId(s: State, c: nat)
    requires Enabled(s, Go(c)) && ClientIdOk(s, s.clients[c]) && (s.inFlight > 0 ==> s.counted)
    ensures ClientIdOk(s, ClientAfter(s, c))
  {}

  lemma FirstId(s: State)
    requires multiset(s.priority) == multiset(Upto(|s.workers|)) && s.priority != []
    ensures s.priority[0] < |s.workers|
  {
    assert s.priority[0] in multiset(s.priority) && s.priority[0] in multiset(Upto(|s.workers|));
  }

  // ----- runs

  ghost predicate Inv(s: State)
  {
    Shape(s) && Counts(s) && Placed(s) && Alarms(s) && Reports(s) && Ids(s)
  }

  lemma InitialInv(s: State)
    requires Initial(s)
    ensures Inv(s)
  {
    SumConstant(s.deques, Length, 0);
    SumConstant(s.workers, WorkerUnassigned, 0);
    SumConstant(s.workers, WorkerInFlight, 0);
    SumConstant(s.clients, ClientUnassigned, 0);
    SumConstant(s.clients, ClientInFlight, 0);
    forall t: nat ensures Places(s, t) == 0 {
      SumConstant(s.deques, InDeque(t), 0);
      SumConstant(s.workers, InWorker(t), 0);
      SumConstant(s.clients, InClient(t), 0);
    }
  }

  lemma WorkInv(s: State, i: nat)
    requires Inv(s) && CanWork(s, i)
    ensures Inv(NextOfWorker(s, i))
  {
    hide Counts, Placed, Alarms, Reports, Ids, NextOfWorker, WorkerStep;
    IsWorkerStep(s, i);
    WorkerStepKeeps(s, NextOfWorker(s, i), i, Victim(s, i));
    WorkAlarms(s, i);
    WorkReports(s, i);
    WorkIds(s, i);
  }

  lemma ThreadInv(s: State, e: Event)
    requires Inv(s) && Enabled(s, e) && ByThread(e)
    ensures Inv(Next(s, e))
  {
    hide Counts, Placed, Alarms, Reports, Ids, NextOfWorker, NextOfClient, WorkerStep, ClientStep;
    var k := if e.Go? then Target(s, e.c) else |s.deques|;
    if e.Go? { IsClientStep(s, e.c); } else { IsCallStep(s, e); }
    ClientStepKeeps(s, Next(s, e), e.c, k);
    GoAlarms(s, e);
    GoReports(s, e);
    GoIds(s, e);
  }

  /** Every step keeps the invariant. */
  lemma StepInv(s: State, e: Event)
    requires Inv(s) && Enabled(s, e)
    ensures Inv(Next(s, e))
  {
    hide Inv, NextOfWorker, NextOfClient;
    match e
    case Work(i) => WorkInv(s, i);
    case Notify(i, c) =>
      var s' := NextOfWorker(s, i);
      WorkInv(s, i);
      InvShape(s');
      if Asleep(s', c) { ThreadInv(s', Go(c)); }
    case _ => ThreadInv(s, e);
  }

  lemma InvShape(s: State)
    requires Inv(s)
    ensures Shape(s)
  {}

  /** An event that is not enabled when its turn comes changes nothing. */
  function Step(s: State, e: Event): State
  {
    if Enabled(s, e) then Next(s, e) else s
  }

  function Play(s: State, es: seq<Event>): State
  {
    Runs.Play(Step, s, es)
  }

  lemma PlayInv(s: State, es: seq<Event>)
    requires Inv(s)
    ensures Inv(Play(s, es))
  {
    forall s, e | Inv(s) ensures Inv(Step(s, e)) {
      if Enabled(s, e) { StepInv(s, e); }
    }
    Runs.PlayKeeps(Step, s => Inv(s), s, es);
  }

  /** A task that has been enqueued, and neither run to its end nor cleared. */
  ghost predicate Unfinished(s: State)
  {
    Queued(s) > 0 || exists i :: 0 <= i < |s.workers| && WorkerInFlight(s.workers[i]) == 1
  }

  /**
   In every run: each accepted task is in exactly one place, so it is invoked or cleared at most once
   in all; the counters bound the queued tasks, and those queued or being run; and the queue of
   workers stays a permutation of their ids.
   */
  lemma PoolIsSafe(init: State, es: seq<Event>)
    requires Initial(init)
    ensures var s := Play(init, es);
      && (forall t: nat :: Places(s, t) == (if t < s.accepted then 1 else 0) && s.invoked[t] + s.cleared[t] <= 1)
      && Queued(s) <= s.unassigned && Queued(s) + Sum(s.workers, WorkerInFlight) <= s.inFlight
      && multiset(s.priority) == multiset(Upto(|s.workers|))
  {
    InitialInv(init);
    PlayInv(init, es);
    var s := Play(init, es);
    NonNegative(s);
    forall t: nat ensures s.invoked[t] + s.cleared[t] <= 1 {
      OnceAtMost(s, t);
    }
  }

  /** Nothing is queued or being run, and no thread holds the task. */
  ghost predicate NowhereElse(s: State, t: nat)
  {
    && Queued(s) == 0 && Sum(s.workers, WorkerInFlight) == 0
    && forall c :: 0 <= c < |s.clients| ==> t !in ClientBag(s.clients[c])
  }

  lemma OnceAtMost(s: State, t: nat)
    requires Placed(s)
    ensures s.invoked[t] + s.cleared[t] <= 1
    ensures t < s.accepted && NowhereElse(s, t) ==> s.invoked[t] + s.cleared[t] == 1
  {
    assert Places(s, t) == if t < s.accepted then 1 else 0;
    SumBounds(s.deques, InDeque(t));
    SumBounds(s.workers, InWorker(t));
    SumBounds(s.clients, InClient(t));
    NonNegative(s);
    if Queued(s) == 0 { SumConstant(s.deques, InDeque(t), 0); }
    if Sum(s.workers, WorkerInFlight) == 0 { SumConstant(s.workers, InWorker(t), 0); }
    if NowhereElse(s, t) { SumConstant(s.clients, InClient(t), 0); }
  }

  /**
   `wait_for_tasks` returns only when it has seen that no task counted as in flight is unfinished: every
   accepted task has been invoked to its end or cleared, but for those whose `enqueue_task` has yet to
   count them.
   */
  lemma WaitSeesTheEnd(s: State, c: nat)
    requires Inv(s) && c < |s.clients| && s.clients[c] == Wait && Next(s, Go(c)).clients[c] == Idle
    ensures !Unfinished(s)
    ensures forall t: nat :: t < s.accepted ==>
      s.invoked[t] + s.cleared[t] == 1 || exists d :: 0 <= d < |s.clients| && StillCounting(s.clients[d], t)
  {
    NonNegative(s);
    forall t: nat | t < s.accepted
      ensures s.invoked[t] + s.cleared[t] == 1 || exists d :: 0 <= d < |s.clients| && StillCounting(s.clients[d], t)
    {
      OnceAtMost(s, t);
      if d :| 0 <= d < |s.clients| && t in ClientBag(s.clients[d]) {
        BringsUncounted(s.clients[d], t);
      }
    }
  }

  lemma BringsUncounted(p: Client, t: nat)
    requires t in ClientBag(p) && ClientInFlight(p) <= 0
    ensures StillCounting(p, t)
  {}

  predicate StillCounting(p: Client, t: nat)
  {
    (p.CountUnassigned? || p.CountInFlight?) && p.task == t
  }

  /** A worker whose deque is not empty, with nobody just about to signal it, is signalled or draining. */
  lemma WorkIsNoticed(init: State, es: seq<Event>, i: nat)
    requires Initial(init)
    requires var s := Play(init, es);
      i < |s.workers| && i < |s.deques| && s.deques[i] != [] && forall c :: !Signalling(s, c, i)
    ensures var s := Play(init, es);
      i < |s.signals| && (s.signals[i] || Draining(s.workers[i]))
  {
    InitialInv(init);
    PlayInv(init, es);
    assert Alerted(Play(init, es), i);
  }

  // ----- notifying

  /** Some worker has set the completion signal, and is about to notify. */
  ghost predicate Notifying(s: State)
  {
    exists i :: 0 <= i < |s.workers| && s.workers[i] == NotifyOne
  }

  /** As long as a thread sleeps although the signal is set, a notification is to come. */
  ghost predicate Noted(s: State)
  {
    s.complete && !NobodySleeps(s) ==> Notifying(s)
  }

  /** Only thread `c` sleeps, if any. */
  predicate OnlySleeps(s: State, c: nat)
  {
    forall d :: 0 <= d < |s.clients| && d != c ==> s.clients[d] != Sleep
  }

  /** When thread `c` is woken with the signal set, it was the only one asleep, or another worker will notify. */
  ghost predicate Suffices(s: State, e: Event)
  {
    e.Notify? && s.complete ==>
      OnlySleeps(s, e.c) || exists i :: 0 <= i < |s.workers| && i != e.i && s.workers[i] == NotifyOne
  }

  lemma WorkNotes(s: State, i: nat)
    requires Noted(s) && Enabled(s, Work(i))
    ensures Noted(NextOfWorker(s, i))
  {
    var s' := NextOfWorker(s, i);
    assert s'.clients == s.clients;
    if s'.complete && !NobodySleeps(s') {
      if s.complete {
        var j :| 0 <= j < |s.workers| && s.workers[j] == NotifyOne;
        assert j != i && s'.workers[j] == NotifyOne;
      } else {
        assert s'.workers[i] == NotifyOne;
      }
    }
  }

  lemma ThreadNotes(s: State, e: Event)
    requires Noted(s) && Enabled(s, e) && ByThread(e)
    ensures Noted(Next(s, e))
  {
    hide Next;
    var s' := Next(s, e);
    GoEffects(s, e);
    GoCompletes(s, e);
    if s'.complete && !NobodySleeps(s') {
      assert !NobodySleeps(s) by {
        var d :| 0 <= d < |s'.clients| && s'.clients[d] == Sleep;
        assert d != e.c && s.clients[d] == Sleep;
      }
    }
  }

  /** A thread falls asleep only when it finds the signal false, and never sets it. */
  lemma GoCompletes(s: State, e: Event)
    requires Enabled(s, e) && ByThread(e) && |Next(s, e).clients| == |s.clients|
    ensures var s' := Next(s, e); (s'.complete ==> s.complete) && (s'.clients[e.c] == Sleep ==> !s'.complete)
  {
    hide RotatedToBack;
  }

  lemma NotifyNotes(s: State, i: nat, c: nat)
    requires Enabled(s, Notify(i, c))
    ensures var s' := Next(s, Notify(i, c));
      Noted(s') <==> Suffices(s, Notify(i, c))
  {
    var s' := Next(s, Notify(i, c));
    assert s'.complete == s.complete && s'.workers == s.workers[i := Acquire];
    assert s'.clients == if Asleep(s, c) then s.clients[c := Compare] else s.clients;
    assert OnlySleeps(s, c) ==> NobodySleeps(s');
    if d :| 0 <= d < |s.clients| && d != c && s.clients[d] == Sleep { assert s'.clients[d] == Sleep; }
    if j :| 0 <= j < |s.workers| && j != i && s.workers[j] == NotifyOne { assert s'.workers[j] == NotifyOne; }
  }

  /** Exactly the notifications that do not suffice leave a thread asleep with the signal set and nobody to wake it. */
  lemma StepNotes(s: State, e: Event)
    requires Noted(s) && Enabled(s, e)
    ensures Noted(Next(s, e)) <==> Suffices(s, e)
  {
    hide Noted, NextOfWorker, NextOfNotify, NextOfClient, OnlySleeps;
    match e
    case Work(i) => WorkNotes(s, i);
    case Notify(i, c) => NotifyNotes(s, i, c);
    case _ => ThreadNotes(s, e);
  }

  lemma {:induction false} PlayNotes(init: State, es: seq<Event>)
    requires Initial(init)
    requires forall n :: 0 <= n < |es| ==> Sufficed(init, es, n)
    ensures Noted(Play(init, es))
  {
    if es != [] {
      var front := es[..|es| - 1];
      forall n | 0 <= n < |front| ensures Sufficed(init, front, n) {
        assert Sufficed(init, es, n) && front[..n] == es[..n];
      }
      PlayNotes(init, front);
      assert Sufficed(init, es, |es| - 1);
      if Enabled(Play(init, front), es[|es| - 1]) { StepNotes(Play(init, front), es[|es| - 1]); }
    }
  }

  /** Event `n` of the run, if it is a notification, suffices. */
  ghost predicate Sufficed(init: State, es: seq<Event>, n: nat)
    requires n < |es|
  {
    Enabled(Play(init, es[..n]), es[n]) ==> Suffices(Play(init, es[..n]), es[n])
  }

  /**
   As long as every notification suffices, a thread that sleeps in `wait_for_tasks` while nothing is in
   flight is going to be notified: if the completion signal is set, some worker is about to notify; if
   not, some worker is on its way to setting it, also when the last tasks have been cleared.
   */
  lemma WaiterIsWoken(init: State, es: seq<Event>, c: nat)
    requires Initial(init)
    requires forall n :: 0 <= n < |es| ==> Sufficed(init, es, n)
    requires var s := Play(init, es); Asleep(s, c) && s.inFlight == 0
    ensures var s := Play(init, es); Shape(s) && if s.complete then Notifying(s) else SomebodyReports(s)
  {
    InitialInv(init);
    PlayInv(init, es);
    PlayNotes(init, es);
    var s := Play(init, es);
    assert ClientIdOk(s, s.clients[c]);
  }

  /** No two threads sleep at the same time. */
  ghost predicate OneSleeps(s: State)
  {
    forall c, d :: Asleep(s, c) && Asleep(s, d) ==> c == d
  }

  /** That is so as long as no two threads sleep in `wait_for_tasks` at the same time. */
  lemma OneWaiterIsWoken(init: State, es: seq<Event>, c: nat)
    requires Initial(init)
    requires forall n :: 0 <= n <= |es| ==> OneSleeps(Play(init, es[..n]))
    requires var s := Play(init, es); Asleep(s, c) && s.inFlight == 0
    ensures var s := Play(init, es); Shape(s) && if s.complete then Notifying(s) else SomebodyReports(s)
  {
    forall n | 0 <= n < |es| ensures Sufficed(init, es, n) {
      var s := Play(init, es[..n]);
      assert OneSleeps(s);
      if Enabled(s, es[n]) && es[n].Notify? && Asleep(s, es[n].c) {
        var w := es[n].c;
        forall d | 0 <= d < |s.clients| && d != w ensures s.clients[d] != Sleep {
          assert !(Asleep(s, w) && Asleep(s, d));
        }
      }
    }
    WaiterIsWoken(init, es, c);
  }

  // ----- a thread that stays asleep

  /** Thread `c` sleeps, no worker is at work or signalled, and no task is being enqueued. */
  ghost predicate Stranded(s: State, c: nat)
  {
    && Shape(s) && Asleep(s, c)
    && (forall i :: 0 <= i < |s.workers| ==> s.workers[i] == Acquire && !s.signals[i])
    && (forall d :: 0 <= d < |s.clients| ==> !Enqueues(s.clients[d]))
  }

  predicate Enqueues(p: Client)
  {
    p.CountUnassigned? || p.CountInFlight? || p.ResetSignal? || p.Push? || p.Signal?
  }

  lemma StrandedStep(s: State, c: nat, e: Event)
    requires Stranded(s, c) && Enabled(s, e) && !e.Enqueue? && e != Go(c)
    ensures Stranded(Next(s, e), c)
  {
    assert ByThread(e);
    GoEffects(s, e);
    var s' := Next(s, e);
    assert !Enqueues(s'.clients[e.c]);
  }

  /** Nothing but a new task, or waking up for no reason, gets such a thread on. */
  lemma {:induction false} StrandedStays(s: State, c: nat, es: seq<Event>)
    requires Stranded(s, c)
    requires forall n :: 0 <= n < |es| ==> !es[n].Enqueue? && es[n] != Go(c)
    ensures Stranded(Play(s, es), c)
  {
    if es != [] {
      var front := es[..|es| - 1];
      StrandedStays(s, c, front);
      if Enabled(Play(s, front), es[|es| - 1]) { StrandedStep(Play(s, front), c, es[|es| - 1]); }
    }
  }

  /** One worker and three threads, before anything has happened. */
  const Fresh: State :=
    State(0, 0, false, [0], [[]], [false], [Acquire], [Idle, Idle, Idle], 0, multiset{}, multiset{}, false)

  /** Thread 2 enqueues a task; threads 0 and 1 wait for it; the worker runs it, sets the signal, and notifies. */
  const TwoWait: seq<Event> :=
    [Enqueue(2), Go(2), Go(2), Go(2), Go(2)] + [Go(2), WaitForTasks(0), Go(0), Go(0), WaitForTasks(1)]
    + [Go(1), Go(1), Work(0), Work(0), Work(0)] + [Work(0), Work(0), Work(0), Work(0), Work(0)]
    + [Work(0), Work(0), Notify(0, 0)]

  /**
   With two threads asleep, one notification is not enough: the last task is done, the signal is set, and
   thread 1 stays asleep.
   */
  lemma SecondWaiterIsStranded()
    ensures Initial(Fresh)
    ensures var s := Play(Fresh, TwoWait); s.complete && s.inFlight == 0 && s.invoked == multiset{0} && Stranded(s, 1)
  {
    hide Runs.Play, Step;
    FreshIsInitial();
    var s1 := TaskPushed(Fresh);
    var s2 := FirstSleeps(s1);
    var s3 := SecondSleeps(s2);
    var s4 := TaskDone(s3);
    var s5 := OneNotified(s4);
    Runs.PlayFive(Step, Fresh, Enqueue(2), Go(2), Go(2), Go(2), Go(2));
    Runs.PlayFive(Step, s1, Go(2), WaitForTasks(0), Go(0), Go(0), WaitForTasks(1));
    Runs.PlayFive(Step, s2, Go(1), Go(1), Work(0), Work(0), Work(0));
    Runs.PlayFive(Step, s3, Work(0), Work(0), Work(0), Work(0), Work(0));
    Runs.PlayThree(Step, s4, Work(0), Work(0), Notify(0, 0));
    FiveParts(Fresh, [Enqueue(2), Go(2), Go(2), Go(2), Go(2)], [Go(2), WaitForTasks(0), Go(0), Go(0), WaitForTasks(1)],
              [Go(1), Go(1), Work(0), Work(0), Work(0)], [Work(0), Work(0), Work(0), Work(0), Work(0)],
              [Work(0), Work(0), Notify(0, 0)]);
  }

  lemma FreshIsInitial()
    ensures Initial(Fresh)
  {
    assert Upto(1) == [0];
  }

  lemma FiveParts(s: State, a: seq<Event>, b: seq<Event>, c: seq<Event>, d: seq<Event>, e: seq<Event>)
    ensures Play(s, a + b + c + d + e) == Play(Play(Play(Play(Play(s, a), b), c), d), e)
  {
    hide Runs.Play, Step;
    Runs.PlayConcat(Step, s, a, b);
    Runs.PlayConcat(Step, s, a + b, c);
    Runs.PlayConcat(Step, s, a + b + c, d);
    Runs.PlayConcat(Step, s, a + b + c + d, e);
  }

  /** With one worker, rotating the ids changes nothing. */
  lemma OnlyId(ids: seq<nat>)
    requires ids == [0]
    ensures RotatedToBack(ids) == ids && RotatedToFront(ids, 0) == ids
  {}

  lemma TaskPushed(s0: State) returns (s: State)
    requires Shape(s0) && s0.clients == [Idle, Idle, Idle] && s0.deques == [[]] && s0.priority == [0]
    requires s0.accepted == 0 && s0.inFlight == 0 && !s0.complete
    ensures s == s0.(unassigned := s0.unassigned + 1, inFlight := 1, counted := true, deques := [[0]],
                     clients := [Idle, Idle, Signal(0)], accepted := 1)
    ensures s == Step(Step(Step(Step(Step(s0, Enqueue(2)), Go(2)), Go(2)), Go(2)), Go(2))
  {
    hide Step;
    var s2 := TaskAccepted(s0);
    s := TaskCounted(s2);
  }

  lemma TaskAccepted(s0: State) returns (s: State)
    requires Shape(s0) && s0.clients == [Idle, Idle, Idle] && s0.priority == [0] && s0.accepted == 0
    ensures s == s0.(unassigned := s0.unassigned + 1, clients := [Idle, Idle, CountInFlight(0, 0)], accepted := 1)
    ensures s == Step(Step(s0, Enqueue(2)), Go(2))
  {
    hide RotatedToBack;
    OnlyId(s0.priority);
    var s1 := Step(s0, Enqueue(2));
    assert s1 == s0.(clients := [Idle, Idle, CountUnassigned(0, 0)], accepted := 1);
    s := Step(s1, Go(2));
    assert s == s1.(clients := [Idle, Idle, CountInFlight(0, 0)], unassigned := s0.unassigned + 1);
  }

  lemma TaskCounted(s0: State) returns (s: State)
    requires Shape(s0) && s0.clients == [Idle, Idle, CountInFlight(0, 0)] && s0.deques == [[]]
    requires s0.inFlight == 0 && !s0.complete
    ensures s == s0.(inFlight := 1, counted := true, clients := [Idle, Idle, Signal(0)], deques := [[0]])
    ensures s == Step(Step(Step(s0, Go(2)), Go(2)), Go(2))
  {
    var s1 := Step(s0, Go(2));
    assert s1 == s0.(clients := [Idle, Idle, ResetSignal(0, 0)], inFlight := 1, counted := true);
    var s2 := Step(s1, Go(2));
    assert s2 == s1.(clients := [Idle, Idle, Push(0, 0)]);
    s := Step(s2, Go(2));
    assert s2.deques[0] + [0] == [0] && s == s2.(clients := [Idle, Idle, Signal(0)], deques := [[0]]);
  }

  lemma FirstSleeps(s0: State) returns (s: State)
    requires Shape(s0) && s0.clients == [Idle, Idle, Signal(0)] && s0.signals == [false]
    requires s0.inFlight == 1 && !s0.complete
    ensures s == s0.(signals := [true], clients := [Sleep, Wait, Idle])
    ensures s == Step(Step(Step(Step(Step(s0, Go(2)), WaitForTasks(0)), Go(0)), Go(0)), WaitForTasks(1))
  {
    hide Step;
    var s1 := SignalsFirst(s0);
    s := WaitsFirst(s1);
  }

  lemma SignalsFirst(s0: State) returns (s: State)
    requires Shape(s0) && s0.clients == [Idle, Idle, Signal(0)] && s0.signals == [false]
    ensures s == s0.(signals := [true], clients := [Idle, Idle, Idle])
    ensures s == Step(s0, Go(2))
  {
    s := Step(s0, Go(2));
    assert s == s0.(clients := [Idle, Idle, Idle], signals := [true]);
  }

  lemma WaitsFirst(s0: State) returns (s: State)
    requires Shape(s0) && s0.clients == [Idle, Idle, Idle] && s0.inFlight == 1 && !s0.complete
    ensures s == s0.(clients := [Sleep, Wait, Idle])
    ensures s == Step(Step(Step(Step(s0, WaitForTasks(0)), Go(0)), Go(0)), WaitForTasks(1))
  {
    var s1 := Step(s0, WaitForTasks(0));
    assert s1 == s0.(clients := [Wait, Idle, Idle]);
    var s2 := Step(s1, Go(0));
    assert s2 == s1.(clients := [Compare, Idle, Idle]);
    var s3 := Step(s2, Go(0));
    assert s3 == s2.(clients := [Sleep, Idle, Idle]);
    s := Step(s3, WaitForTasks(1));
    assert s == s3.(clients := [Sleep, Wait, Idle]);
  }

  lemma SecondSleeps(s0: State) returns (s: State)
    requires Shape(s0) && s0.clients == [Sleep, Wait, Idle] && s0.inFlight == 1 && !s0.complete
    requires s0.workers == [Acquire] && s0.signals == [true] && s0.deques == [[0]]
    ensures s == s0.(unassigned := s0.unassigned - 1, deques := [[]], signals := [false],
                     workers := [Invoke(0, false)], clients := [Sleep, Sleep, Idle])
    ensures s == Step(Step(Step(Step(Step(s0, Go(1)), Go(1)), Work(0)), Work(0)), Work(0))
  {
    var s1 := Step(s0, Go(1));
    assert s1 == s0.(clients := [Sleep, Compare, Idle]);
    var s2 := Step(s1, Go(1));
    assert s2 == s1.(clients := [Sleep, Sleep, Idle]);
    s := TaskTaken(s2);
  }

  lemma TaskTaken(s0: State) returns (s: State)
    requires Shape(s0) && s0.workers == [Acquire] && s0.signals == [true] && s0.deques == [[0]]
    ensures s == s0.(unassigned := s0.unassigned - 1, deques := [[]], signals := [false], workers := [Invoke(0, false)])
    ensures s == Step(Step(Step(s0, Work(0)), Work(0)), Work(0))
  {
    var s1 := Step(s0, Work(0));
    assert s1 == s0.(workers := [Pop], signals := [false]);
    var s2 := Step(s1, Work(0));
    assert [0][1..] == [] && s2 == s1.(workers := [Took(0, false)], deques := [[]]);
    s := Step(s2, Work(0));
    assert s == s2.(workers := [Invoke(0, false)], unassigned := s0.unassigned - 1);
  }

  lemma TaskDone(s0: State) returns (s: State)
    requires Shape(s0) && s0.workers == [Invoke(0, false)] && s0.invoked == multiset{}
    requires s0.deques == [[]] && s0.unassigned == 0 && s0.priority == [0]
    ensures s == s0.(workers := [CheckInFlight], invoked := multiset{0}, inFlight := s0.inFlight - 1)
    ensures s == Step(Step(Step(Step(Step(s0, Work(0)), Work(0)), Work(0)), Work(0)), Work(0))
  {
    hide Step;
    var s2 := TaskInvoked(s0);
    s := NothingLeft(s2);
  }

  lemma TaskInvoked(s0: State) returns (s: State)
    requires Shape(s0) && s0.workers == [Invoke(0, false)] && s0.invoked == multiset{}
    ensures s == s0.(workers := [Pop], invoked := multiset{0}, inFlight := s0.inFlight - 1)
    ensures s == Step(Step(s0, Work(0)), Work(0))
  {
    var s1 := Step(s0, Work(0));
    assert s1 == s0.(workers := [Finish(false)], invoked := multiset{0});
    s := Step(s1, Work(0));
    assert s == s1.(workers := [Pop], inFlight := s0.inFlight - 1);
  }

  lemma NothingLeft(s0: State) returns (s: State)
    requires Shape(s0) && s0.workers == [Pop] && s0.deques == [[]] && s0.unassigned == 0 && s0.priority == [0]
    ensures s == s0.(workers := [CheckInFlight])
    ensures s == Step(Step(Step(s0, Work(0)), Work(0)), Work(0))
  {
    hide RotatedToFront;
    OnlyId(s0.priority);
    var s1 := Step(s0, Work(0));
    assert s1 == s0.(workers := [CheckUnassigned]);
    var s2 := Step(s1, Work(0));
    assert s2 == s1.(workers := [Rotate]);
    s := Step(s2, Work(0));
    assert s == s2.(workers := [CheckInFlight]);
  }

  lemma OneNotified(s0: State) returns (s: State)
    requires Shape(s0) && s0.workers == [CheckInFlight] && s0.clients == [Sleep, Sleep, Idle] && s0.inFlight == 0
    ensures s == s0.(workers := [Acquire], clients := [Compare, Sleep, Idle], complete := true)
    ensures s == Step(Step(Step(s0, Work(0)), Work(0)), Notify(0, 0))
  {
    var s1 := Step(s0, Work(0));
    assert s1 == s0.(workers := [SetComplete]);
    var s2 := Step(s1, Work(0));
    assert s2 == s1.(workers := [NotifyOne], complete := true);
    assert Asleep(s2, 0);
    s := Step(s2, Notify(0, 0));
    assert s == s2.(workers := [Acquire], clients := [Compare, Sleep, Idle]);
  }
}
