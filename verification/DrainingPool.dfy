/**
 The repository's own pool: workers that pop tasks from one queue until it is shut down and empty,
 threads that enqueue tasks, and the two ways of shutting the pool down.

 Each step is one atomic operation, or one critical section of the queue (module ThreadSafeQueue).
 `enqueued`, `done`, `cleared`, `returnedTrue` and `before` are history variables; each call of
 `tryEnqueueTask` has a task of its own.  `before` serves in proofs only.
 */
module DrainingPool {
  import opened Counting
  import Runs

  datatype Worker = WaitPop | Run(task: nat) | Exited

  datatype Producer =
    | Idle
    | Push(task: nat)            // the section of push is next
    | CheckShutdown(task: nat)   // tryPush reads _shutdown
    | TryPush(task: nat)         // the section of tryPush is next

  datatype Closer =
    | Open
    | Poll                       // while (!taskQueue.empty())
    | Clear                      // shutdownImmediately
    | Shutdown(drain: bool)
    | Join(drain: bool)
    | Closed(performed: bool)    // the call has returned

  datatype State = State(
    maxSize: nat,
    queue: seq<nat>,
    shut: bool,
    active: bool,
    workers: seq<Worker>,
    producers: seq<Producer>,
    closers: seq<Closer>,
    calls: nat,                  // calls of tryEnqueueTask so far
    enqueued: multiset<nat>,
    done: multiset<nat>,
    cleared: multiset<nat>,
    returnedTrue: set<nat>,
    before: set<nat>)            // returnedTrue, when the pool was made inactive

  datatype Event =
    | TryEnqueue(p: nat, block: bool)
    | Produce(p: nat)
    | Work(w: nat)
    | Drain(c: nat)              // shutdownProcessRemainingTasks
    | Stop(c: nat)               // shutdownImmediately
    | Close(c: nat)

  ghost predicate Initial(s: State)
  {
    && s.queue == [] && !s.shut && s.active && s.calls == 0
    && (forall w :: 0 <= w < |s.workers| ==> s.workers[w] == WaitPop)
    && (forall p :: 0 <= p < |s.producers| ==> s.producers[p] == Idle)
    && (forall c :: 0 <= c < |s.closers| ==> s.closers[c] == Open)
    && s.enqueued == s.done == s.cleared == multiset{} && s.returnedTrue == s.before == {}
  }

  predicate HasRoom(s: State)
  {
    s.maxSize == 0 || |s.queue| < s.maxSize
  }

  predicate AllExited(s: State)
  {
    forall w :: 0 <= w < |s.workers| ==> s.workers[w] == Exited
  }

  predicate Enabled(s: State, e: Event)
  {
    match e
    case TryEnqueue(p, _) => p < |s.producers| && s.producers[p] == Idle
    case Produce(p) =>
      p < |s.producers| && s.producers[p] != Idle && (s.producers[p].Push? ==> s.shut || HasRoom(s))
    case Work(w) =>
      w < |s.workers| && s.workers[w] != Exited && (s.workers[w].WaitPop? ==> s.shut || s.queue != [])
    case Drain(c) => c < |s.closers| && s.closers[c] == Open
    case Stop(c) => c < |s.closers| && s.closers[c] == Open
    case Close(c) =>
      c < |s.closers| && s.closers[c] != Open && !s.closers[c].Closed? && (s.closers[c].Join? ==> AllExited(s))
  }

  function SetProducer(s: State, p: nat, pc: Producer): State
    requires p < |s.producers|
  {
    s.(producers := s.producers[p := pc])
  }

  function SetCloser(s: State, c: nat, pc: Closer): State
    requires c < |s.closers|
  {
    s.(closers := s.closers[c := pc])
  }

  function Append(s: State, task: nat): State
  {
    s.(queue := s.queue + [task], enqueued := s.enqueued + multiset{task})
  }

  function ReturnTrue(s: State, task: nat): State
  {
    s.(returnedTrue := s.returnedTrue + {task})
  }

  function NextOfProducer(s: State, p: nat): State
    requires p < |s.producers|
  {
    match s.producers[p]
    case Idle => s
    case Push(task) => SetProducer(ReturnTrue(if s.shut then s else Append(s, task), task), p, Idle)
    case CheckShutdown(task) => SetProducer(s, p, if s.shut then Idle else TryPush(task))
    case TryPush(task) => SetProducer(if HasRoom(s) then ReturnTrue(Append(s, task), task) else s, p, Idle)
  }

  function NextOfWorker(s: State, w: nat): State
    requires Enabled(s, Work(w))
  {
    match s.workers[w]
    case WaitPop =>
      if s.queue == [] then s.(workers := s.workers[w := Exited])
      else s.(queue := s.queue[1..], workers := s.workers[w := Run(s.queue[0])])
    case Run(task) => s.(workers := s.workers[w := WaitPop], done := s.done + multiset{task})
    case Exited => s
  }

  function NextOfCloser(s: State, c: nat): State
    requires c < |s.closers|
  {
    match s.closers[c]
    case Open => s
    case Poll => if s.queue == [] then SetCloser(s, c, Shutdown(true)) else s
    case Clear => SetCloser(s, c, Shutdown(false)).(queue := [], cleared := s.cleared + multiset(s.queue))
    case Shutdown(drain) => SetCloser(s, c, Join(drain)).(shut := true)
    case Join(drain) => SetCloser(s, c, Closed(true))
    case Closed(_) => s
  }

  function Next(s: State, e: Event): State
    requires Enabled(s, e)
  {
    match e
    case TryEnqueue(p, block) =>
      if s.active then
        SetProducer(s, p, if block then Push(s.calls) else CheckShutdown(s.calls)).(calls := s.calls + 1)
      else s.(calls := s.calls + 1)
    case Produce(p) => NextOfProducer(s, p)
    case Work(w) => NextOfWorker(s, w)
    case Drain(c) =>
      if s.active then SetCloser(s, c, Poll).(active := false, before := s.returnedTrue)
      else SetCloser(s, c, Closed(false))
    case Stop(c) =>
      if s.active then SetCloser(s, c, Clear).(active := false, before := s.returnedTrue)
      else SetCloser(s, c, Closed(false))
    case Close(c) => NextOfCloser(s, c)
  }

  // ----- where tasks are

  function RunsTask(t: nat): Worker -> int
  {
    (w: Worker) => if w == Run(t) then 1 else 0
  }

  function Brings(t: nat): Producer -> int
  {
    (p: Producer) => if !p.Idle? && p.task == t then 1 else 0
  }

  /** In how many places the enqueued task `t` is. */
  function Places(s: State, t: nat): int
  {
    multiset(s.queue)[t] + Sum(s.workers, RunsTask(t)) + s.done[t] + s.cleared[t]
  }

  /** Each task is where it has been enqueued to, once; and a call brings its task once. */
  ghost predicate Placed(s: State)
  {
    forall t: nat ::
      && Places(s, t) == s.enqueued[t]
      && s.enqueued[t] + Sum(s.producers, Brings(t)) <= (if t < s.calls then 1 else 0)
  }

  // ----- the performing closer

  /** The closer has made the pool inactive, and is not done. */
  function Performs(c: Closer): int
  {
    if c.Open? || c == Closed(false) then 0 else 1
  }

  predicate Draining(c: Closer)
  {
    c.Poll? || c == Shutdown(true) || c == Join(true)
  }

  ghost predicate CloserInv(s: State, c: Closer)
  {
    && (Performs(c) == 1 ==> !s.active)
    && (Draining(c) ==> s.cleared == multiset{})
    && (c == Shutdown(true) || c == Join(true) ==> forall t :: t in s.before ==> t !in s.queue)
    && (c.Join? ==> s.shut)
  }

  ghost predicate Inv(s: State)
  {
    && Placed(s)
    && Sum(s.closers, Performs) == (if s.active then 0 else 1)
    && (s.shut ==> !s.active)
    && (s.active ==> s.cleared == multiset{})
    && (forall c :: 0 <= c < |s.closers| ==> CloserInv(s, s.closers[c]))
    && (forall t :: t in s.before ==> s.enqueued[t] == 1)
    && (!s.shut ==> forall t :: t in s.returnedTrue ==> s.enqueued[t] == 1)
    && (s.maxSize > 0 ==> |s.queue| <= s.maxSize)
  }

  lemma InitialInv(s: State)
    requires Initial(s)
    ensures Inv(s)
  {
    forall t: nat ensures Places(s, t) == 0 && Sum(s.producers, Brings(t)) == 0 {
      SumConstant(s.workers, RunsTask(t), 0);
      SumConstant(s.producers, Brings(t), 0);
    }
    SumConstant(s.closers, Performs, 0);
  }

  // ----- steps keep tasks in place

  /** What a step of producer `p` does: it appends its task, or not, and returns true, or not. */
  ghost predicate Produced(s: State, s': State, p: nat, appended: bool)
    requires p < |s.producers|
  {
    !s.producers[p].Idle? && p < |s'.producers| &&
    var task, pc := s.producers[p].task, s'.producers[p];
    && s' == s.(producers := s.producers[p := pc], queue := s'.queue, enqueued := s'.enqueued,
                returnedTrue := s'.returnedTrue)
    && (pc.Idle? || (pc == TryPush(task) && !appended))
    && s'.queue == (if appended then s.queue + [task] else s.queue)
    && s'.enqueued == (if appended then s.enqueued + multiset{task} else s.enqueued)
    && (appended ==> HasRoom(s))
    && (s'.returnedTrue == s.returnedTrue
        || (pc.Idle? && s'.returnedTrue == s.returnedTrue + {task} && (appended || s.shut)))
  }

  lemma IsProduced(s: State, p: nat) returns (appended: bool)
    requires Enabled(s, Produce(p))
    ensures Produced(s, NextOfProducer(s, p), p, appended)
  {
    var pc := s.producers[p];
    appended := (pc.Push? && !s.shut) || (pc.TryPush? && HasRoom(s));
  }

  lemma ProducePlaced(s: State, s': State, p: nat, appended: bool)
    requires Placed(s) && p < |s.producers| && Produced(s, s', p, appended)
    ensures Placed(s')
  {
    forall t: nat
      ensures Places(s', t) == s'.enqueued[t]
      ensures s'.enqueued[t] + Sum(s'.producers, Brings(t)) <= (if t < s'.calls then 1 else 0)
    {
      assert Places(s, t) == s.enqueued[t];
      SumUpdate(s.producers, p, s'.producers[p], Brings(t));
    }
  }

  lemma CallPlaced(s: State, e: Event)
    requires Placed(s) && Enabled(s, e) && e.TryEnqueue?
    ensures Placed(Next(s, e))
  {
    var s' := Next(s, e);
    forall t: nat
      ensures Places(s', t) == s'.enqueued[t]
      ensures s'.enqueued[t] + Sum(s'.producers, Brings(t)) <= (if t < s'.calls then 1 else 0)
    {
      assert Places(s, t) == s.enqueued[t];
      if s.active { SumUpdate(s.producers, e.p, s'.producers[e.p], Brings(t)); }
    }
  }

  /** A worker takes the first task, finishes its task, or leaves. */
  lemma WorkEffect(s: State, w: nat)
    requires Enabled(s, Work(w))
    ensures var s' := NextOfWorker(s, w);
      && w < |s'.workers| && s'.workers == s.workers[w := s'.workers[w]]
      && s'.enqueued == s.enqueued && s'.cleared == s.cleared && s'.producers == s.producers && s'.calls == s.calls
    ensures var s' := NextOfWorker(s, w); forall t: nat ::
      multiset(s'.queue)[t] + RunsTask(t)(s'.workers[w]) + s'.done[t]
      == multiset(s.queue)[t] + RunsTask(t)(s.workers[w]) + s.done[t]
  {
    if s.queue != [] {
      assert s.queue == [s.queue[0]] + s.queue[1..];
      assert multiset(s.queue) == multiset{s.queue[0]} + multiset(s.queue[1..]);
    }
  }

  lemma WorkPlaced(s: State, w: nat)
    requires Placed(s) && Enabled(s, Work(w))
    ensures Placed(NextOfWorker(s, w))
  {
    hide NextOfWorker;
    var s' := NextOfWorker(s, w);
    WorkEffect(s, w);
    forall t: nat
      ensures Places(s', t) == s'.enqueued[t]
      ensures s'.enqueued[t] + Sum(s'.producers, Brings(t)) <= (if t < s'.calls then 1 else 0)
    {
      assert Places(s, t) == s.enqueued[t];
      SumUpdate(s.workers, w, s'.workers[w], RunsTask(t));
    }
  }

  /** What a step of closer `c` does to the tasks: it clears the queue, or nothing. */
  ghost predicate Tidied(s: State, s': State, c: nat, clears: bool)
  {
    && c < |s.closers| && c < |s'.closers| && s'.closers == s.closers[c := s'.closers[c]]
    && s' == s.(closers := s'.closers, queue := s'.queue, cleared := s'.cleared, shut := s'.shut,
                active := s'.active, before := s'.before)
    && s'.queue == (if clears then [] else s.queue)
    && s'.cleared == (if clears then s.cleared + multiset(s.queue) else s.cleared)
    && (clears ==> s.closers[c] == Clear)
  }

  lemma IsTidied(s: State, e: Event) returns (clears: bool)
    requires Enabled(s, e) && (e.Drain? || e.Stop? || e.Close?)
    ensures Tidied(s, Next(s, e), e.c, clears)
  {
    clears := e.Close? && s.closers[e.c] == Clear;
  }

  lemma ClosePlaced(s: State, s': State, c: nat, clears: bool)
    requires Placed(s) && Tidied(s, s', c, clears)
    ensures Placed(s')
  {
    forall t: nat
      ensures Places(s', t) == s'.enqueued[t]
      ensures s'.enqueued[t] + Sum(s'.producers, Brings(t)) <= (if t < s'.calls then 1 else 0)
    {
      assert Places(s, t) == s.enqueued[t];
    }
  }

  /** A task that a producer still brings is neither enqueued nor anywhere else. */
  lemma BroughtOnce(s: State, p: nat)
    requires Placed(s) && p < |s.producers| && !s.producers[p].Idle?
    ensures s.enqueued[s.producers[p].task] == 0
  {
    var t := s.producers[p].task;
    SumBounds(s.producers, Brings(t));
    assert Places(s, t) == s.enqueued[t];
    assert Brings(t)(s.producers[p]) == 1;
  }

  lemma InQueue(s: State, t: nat)
    requires Placed(s)
    ensures s.enqueued[t] <= 1
    ensures s.enqueued[t] == 0 ==> t !in s.queue
  {
    assert Places(s, t) == s.enqueued[t];
    SumBounds(s.producers, Brings(t));
    SumBounds(s.workers, RunsTask(t));
  }

  // ----- steps keep the rest

  lemma ProduceInv(s: State, p: nat)
    requires Inv(s) && Enabled(s, Produce(p))
    ensures Inv(NextOfProducer(s, p))
  {
    hide NextOfProducer, Placed;
    var s' := NextOfProducer(s, p);
    var appended := IsProduced(s, p);
    ProducePlaced(s, s', p, appended);
    BroughtOnce(s, p);
    InQueue(s, s.producers[p].task);
    forall c | 0 <= c < |s'.closers| ensures CloserInv(s', s'.closers[c]) { assert CloserInv(s, s.closers[c]); }
  }

  lemma WorkInv(s: State, w: nat)
    requires Inv(s) && Enabled(s, Work(w))
    ensures Inv(NextOfWorker(s, w))
  {
    var s' := NextOfWorker(s, w);
    WorkPlaced(s, w);
    forall c | 0 <= c < |s'.closers| ensures CloserInv(s', s'.closers[c]) { assert CloserInv(s, s.closers[c]); }
  }

  /** Only one closer performs. */
  lemma OnePerforms(s: State, c: nat, d: nat)
    requires Sum(s.closers, Performs) <= 1 && c < |s.closers| && d < |s.closers| && Performs(s.closers[c]) == 1 && c != d
    ensures Performs(s.closers[d]) == 0
  {
    SumUpdate(s.closers, c, Open, Performs);
    SumBounds(s.closers[c := Open], Performs);
    assert s.closers[c := Open][d] == s.closers[d];
  }

  /** What a step of a closer does to the pool's flags. */
  ghost predicate Closes(s: State, s': State, c: nat)
    requires c < |s.closers| && c < |s'.closers|
  {
    var pc, pc' := s.closers[c], s'.closers[c];
    && (if Performs(pc') > Performs(pc) then
          s.active && !s'.active && s'.before == s.returnedTrue && (pc' == Poll || pc' == Clear)
        else s'.active == s.active && s'.before == s.before && Performs(pc') == Performs(pc))
    && (Draining(pc') ==> Draining(pc) || Performs(pc') > Performs(pc))
    && (pc' == Shutdown(true) ==> s.queue == [])
    && (pc' == Join(true) ==> pc == Shutdown(true))
    && (s'.shut ==> s.shut || pc.Shutdown?) && (s.shut ==> s'.shut) && (pc'.Join? ==> s'.shut)
  }

  lemma IsClosing(s: State, e: Event)
    requires Enabled(s, e) && (e.Drain? || e.Stop? || e.Close?) && e.c < |Next(s, e).closers|
    ensures Closes(s, Next(s, e), e.c)
  {
    if e.Close? { IsClosingStep(s, e.c); }
  }

  lemma IsClosingStep(s: State, c: nat)
    requires Enabled(s, Close(c)) && c < |NextOfCloser(s, c).closers|
    ensures Closes(s, NextOfCloser(s, c), c)
  {
    hide NextOfCloser, Enabled;
    CloserAfter(s, c);
  }

  lemma CloserAfter(s: State, c: nat)
    requires Enabled(s, Close(c)) && c < |NextOfCloser(s, c).closers|
    ensures c < |s.closers| && s.closers[c] != Open && !s.closers[c].Closed?
    ensures var s', pc := NextOfCloser(s, c), s.closers[c];
      && s'.active == s.active && s'.before == s.before && s'.shut == (s.shut || pc.Shutdown?)
      && s'.closers[c] ==
        match pc
        case Poll => if s.queue == [] then Shutdown(true) else Poll
        case Clear => Shutdown(false)
        case Shutdown(drain) => Join(drain)
        case _ => Closed(true)
  {}

  lemma CloseInv(s: State, e: Event)
    requires Inv(s) && Enabled(s, e) && (e.Drain? || e.Stop? || e.Close?)
    ensures Inv(Next(s, e))
  {
    hide Next, Placed;
    var s', c := Next(s, e), e.c;
    var clears := IsTidied(s, e);
    IsClosing(s, e);
    ClosePlaced(s, s', c, clears);
    SumUpdate(s.closers, c, s'.closers[c], Performs);
    SumBounds(s.closers, Performs);
    assert CloserInv(s, s.closers[c]);
    forall d | 0 <= d < |s'.closers| ensures CloserInv(s', s'.closers[d]) {
      assert CloserInv(s, s.closers[d]) && Performs(s.closers[d]) <= Sum(s.closers, Performs);
      if d != c && Performs(s.closers[c]) == 1 { OnePerforms(s, c, d); }
    }
  }

  lemma StepInv(s: State, e: Event)
    requires Inv(s) && Enabled(s, e)
    ensures Inv(Next(s, e))
  {
    match e
    case TryEnqueue(_, _) =>
      CallPlaced(s, e);
      var s' := Next(s, e);
      forall c | 0 <= c < |s'.closers| ensures CloserInv(s', s'.closers[c]) { assert CloserInv(s, s.closers[c]); }
    case Produce(p) => ProduceInv(s, p);
    case Work(w) => WorkInv(s, w);
    case Drain(_) => CloseInv(s, e);
    case Stop(_) => CloseInv(s, e);
    case Close(_) => CloseInv(s, e);
  }

  // ----- runs

  /** An event that is not enabled when its turn comes changes nothing. */
  function Step(s: State, e: Event): State
  {
    if Enabled(s, e) then Next(s, e) else s
  }

  function Play(s: State, es: seq<Event>): State
  {
    Runs.Play(Step, s, es)
  }

  lemma PlayInv(s: State, es: seq<Event>)
    requires Inv(s)
    ensures Inv(Play(s, es))
  {
    forall s, e | Inv(s) ensures Inv(Step(s, e)) {
      if Enabled(s, e) { StepInv(s, e); }
    }
    Runs.PlayKeeps(Step, s => Inv(s), s, es);
  }

  /** In every run: no task runs twice, or runs and is cleared; and a bounded queue never exceeds its bound. */
  lemma TasksRunAtMostOnce(init: State, es: seq<Event>)
    requires Initial(init)
    ensures var s := Play(init, es);
      && (forall t: nat :: s.done[t] + s.cleared[t] <= 1)
      && (s.maxSize > 0 ==> |s.queue| <= s.maxSize)
  {
    InitialInv(init);
    PlayInv(init, es);
    var s := Play(init, es);
    forall t: nat ensures s.done[t] + s.cleared[t] <= 1 {
      InQueue(s, t);
      assert Places(s, t) == s.enqueued[t];
      SumBounds(s.workers, RunsTask(t));
    }
  }

  /** What was noted when the drain began has run when it is about to return. */
  lemma NotedHasRun(s: State, c: nat)
    requires Inv(s) && Enabled(s, Close(c)) && s.closers[c] == Join(true)
    ensures AllExited(s) && forall t: nat :: t in s.before ==> s.done[t] == 1
  {
    assert CloserInv(s, s.closers[c]);
    forall t: nat | t in s.before ensures s.done[t] == 1 {
      SumConstant(s.workers, RunsTask(t), 0);
      assert Places(s, t) == s.enqueued[t];
    }
  }

  /** Once the pool is inactive, nothing more is noted. */
  lemma NotedOnce(s: State, es: seq<Event>)
    requires !s.active
    ensures !Play(s, es).active && Play(s, es).before == s.before
  {
    var same := (s': State) => !s'.active && s'.before == s.before;
    forall s', e | same(s') ensures same(Step(s', e)) {
      if Enabled(s', e) { StaysInactive(s', e); }
    }
    Runs.PlayKeeps(Step, same, s, es);
  }

  lemma StaysInactive(s: State, e: Event)
    requires Enabled(s, e) && !s.active
    ensures !Next(s, e).active && Next(s, e).before == s.before
  {}

  /**
   When the call of `shutdownProcessRemainingTasks` that performs the drain is about to return, every
   task for which `tryEnqueueTask` had returned true before that call began has run exactly once, and
   all the workers have exited.
   */
  lemma DrainRunsEverything(init: State, es: seq<Event>, c: nat, fs: seq<Event>)
    requires Initial(init)
    requires var s := Play(init, es); c < |s.closers| && s.closers[c] == Open && s.active
    requires var s' := Play(init, es + [Drain(c)] + fs); Enabled(s', Close(c)) && s'.closers[c] == Join(true)
    ensures var s, s' := Play(init, es), Play(init, es + [Drain(c)] + fs);
      AllExited(s') && forall t: nat :: t in s.returnedTrue ==> s'.done[t] == 1
  {
    hide Step;
    InitialInv(init);
    PlayInv(init, es + [Drain(c)] + fs);
    Runs.PlayConcat(Step, init, es, [Drain(c)]);
    Runs.PlayConcat(Step, init, es + [Drain(c)], fs);
    DrainBegins(Play(init, es), c);
    NotedOnce(Play(init, es + [Drain(c)]), fs);
    NotedHasRun(Play(init, es + [Drain(c)] + fs), c);
  }

  lemma DrainBegins(s: State, c: nat)
    requires c < |s.closers| && s.closers[c] == Open && s.active
    ensures var s' := Play(s, [Drain(c)]); !s'.active && s'.before == s.returnedTrue
  {
    Runs.PlayOne(Step, s, Drain(c));
  }

  // ----- tasks that come later

  /** Workers that have exited run nothing. */
  lemma NobodyWorks(s: State, es: seq<Event>)
    requires AllExited(s)
    ensures AllExited(Play(s, es)) && Play(s, es).done == s.done
  {
    var same := (s': State) => AllExited(s') && s'.done == s.done;
    forall s', e | same(s') ensures same(Step(s', e)) {
      if Enabled(s', e) { StaysExited(s', e); }
    }
    Runs.PlayKeeps(Step, same, s, es);
  }

  lemma StaysExited(s: State, e: Event)
    requires AllExited(s) && Enabled(s, e)
    ensures Next(s, e).workers == s.workers && Next(s, e).done == s.done
  {}

  /**
   Whatever was promised, and on either path: a task runs if and only if it is appended before the last
   worker exits, and not cleared.  When that worker exits, all tasks appended until then have run or been
   cleared; those appended afterwards never run.
   */
  lemma LastExitDecides(init: State, es: seq<Event>, w: nat, fs: seq<Event>)
    requires Initial(init)
    requires var s := Play(init, es); Enabled(s, Work(w)) && !AllExited(s) && AllExited(Next(s, Work(w)))
    ensures var s, s' := Play(init, es), Play(init, es + [Work(w)] + fs);
      forall t: nat :: s'.done[t] == (if s.enqueued[t] == 1 && s.cleared[t] == 0 then 1 else 0)
  {
    hide Step;
    InitialInv(init);
    PlayInv(init, es);
    var s := Play(init, es);
    Runs.PlayConcat(Step, init, es, [Work(w)]);
    Runs.PlayConcat(Step, init, es + [Work(w)], fs);
    Runs.PlayOne(Step, s, Work(w));
    StepsNext(s, Work(w));
    NobodyWorks(Next(s, Work(w)), fs);
    LastExit(s, w);
    forall t: nat ensures s.done[t] == (if s.enqueued[t] == 1 && s.cleared[t] == 0 then 1 else 0) {
      InQueue(s, t);
      assert Places(s, t) == s.enqueued[t];
      SumConstant(s.workers, RunsTask(t), 0);
    }
  }

  lemma StepsNext(s: State, e: Event)
    requires Enabled(s, e)
    ensures Step(s, e) == Next(s, e)
  {}

  /** The last worker exits only when the queue is empty and nothing is being run. */
  lemma LastExit(s: State, w: nat)
    requires Enabled(s, Work(w)) && !AllExited(s) && AllExited(Next(s, Work(w)))
    ensures s.queue == [] && Next(s, Work(w)).done == s.done
    ensures forall v :: 0 <= v < |s.workers| ==> !s.workers[v].Run?
  {
    var s' := Next(s, Work(w));
    assert s'.workers[w] == Exited && s.workers[w] == WaitPop;
    forall v | 0 <= v < |s.workers| && v != w ensures s.workers[v] == Exited { assert s'.workers[v] == Exited; }
  }

  /** Tasks that have been promised belong to calls that have been made, and are over. */
  ghost predicate Known(s: State)
  {
    && (forall t :: t in s.returnedTrue ==> t < s.calls)
    && (forall p :: 0 <= p < |s.producers| && !s.producers[p].Idle? ==> s.producers[p].task !in s.returnedTrue)
  }

  /** No two calls bring the same task, and each brings one that has been numbered. */
  lemma BroughtApart(s: State, p: nat, q: nat)
    requires Placed(s) && p < |s.producers| && !s.producers[p].Idle?
    requires q < |s.producers| && q != p
    ensures !s.producers[q].Idle? ==> s.producers[q].task != s.producers[p].task
  {
    var t := s.producers[p].task;
    SumUpdate(s.producers, p, Idle, Brings(t));
    SumBounds(s.producers[p := Idle], Brings(t));
    assert Places(s, t) == s.enqueued[t];
    assert s.producers[p := Idle][q] == s.producers[q];
  }

  lemma NumberedTask(s: State, p: nat)
    requires Placed(s) && p < |s.producers| && !s.producers[p].Idle?
    ensures s.producers[p].task < s.calls
  {
    if s.producers[p].task >= s.calls { NotYet(s, s.producers[p].task); }
  }

  /** A task that has not been numbered yet is nowhere. */
  lemma NotYet(s: State, t: nat)
    requires Placed(s) && t >= s.calls
    ensures s.enqueued[t] == 0 && forall p :: 0 <= p < |s.producers| && !s.producers[p].Idle? ==> s.producers[p].task != t
  {
    SumBounds(s.producers, Brings(t));
    assert Places(s, t) == s.enqueued[t];
    forall p | 0 <= p < |s.producers| && !s.producers[p].Idle? ensures s.producers[p].task != t {
      assert Brings(t)(s.producers[p]) <= 0;
    }
  }

  lemma KnownStep(s: State, e: Event)
    requires Placed(s) && Known(s)
    ensures Known(Step(s, e))
  {
    hide Next, Placed, Known;
    if Enabled(s, e) {
      match e
      case TryEnqueue(_, _) => CallKnown(s, e);
      case Produce(p) => ProduceKnown(s, p);
      case _ => OthersKnown(s, e);
    }
  }

  lemma CallKnown(s: State, e: Event)
    requires Placed(s) && Known(s) && Enabled(s, e) && e.TryEnqueue?
    ensures Known(Next(s, e))
  {
    hide Placed;
  }

  lemma ProduceKnown(s: State, p: nat)
    requires Placed(s) && Known(s) && Enabled(s, Produce(p))
    ensures Known(Next(s, Produce(p)))
  {
    hide NextOfProducer, Placed;
    var s', t := NextOfProducer(s, p), s.producers[p].task;
    var appended := IsProduced(s, p);
    NumberedTask(s, p);
    forall q | 0 <= q < |s'.producers| && !s'.producers[q].Idle? ensures s'.producers[q].task !in s'.returnedTrue {
      if q != p { BroughtApart(s, p, q); }
    }
  }

  lemma OthersKnown(s: State, e: Event)
    requires Known(s) && Enabled(s, e) && !e.TryEnqueue? && !e.Produce?
    ensures Known(Next(s, e))
  {}

  lemma {:induction false} AlwaysKnown(init: State, es: seq<Event>)
    requires Initial(init)
    ensures Known(Play(init, es)) && Inv(Play(init, es))
  {
    InitialInv(init);
    PlayInv(init, es);
    if es != [] {
      AlwaysKnown(init, es[..|es| - 1]);
      KnownStep(Play(init, es[..|es| - 1]), es[|es| - 1]);
    }
  }

  // ----- what `tryEnqueueTask` returns

  /** The queue has been shut, or is full. */
  predicate Refuses(s: State)
  {
    s.shut || !HasRoom(s)
  }

  /** Nobody brings the task any more. */
  predicate Over(s: State, t: nat)
  {
    forall p :: 0 <= p < |s.producers| && !s.producers[p].Idle? ==> s.producers[p].task != t
  }

  /**
   Where the call stands that brought task `t`: it was made by producer `p`, when the pool was active, or not.
   Since then the queue has been shut, or has been shut or full, as the last two say.
   */
  ghost predicate Standing(s: State, t: nat, p: nat, block: bool, active: bool, shut: bool, refused: bool)
  {
    t < s.calls &&
    if Over(s, t) then
      && (t in s.returnedTrue <==> active && (block || s.enqueued[t] == 1))
      && (s.enqueued[t] == 0 || (active && s.enqueued[t] == 1))
      && (active && s.enqueued[t] == 0 ==> if block then shut else refused)
    else
      && active && p < |s.producers| && !s.producers[p].Idle? && s.producers[p].task == t
      && (s.producers[p].Push? <==> block) && t !in s.returnedTrue && s.enqueued[t] == 0
  }

  ghost predicate CallInv(init: State, es: seq<Event>, n: nat, t: nat, p: nat, block: bool, active: bool)
  {
    Standing(Play(init, es), t, p, block, active,
             Runs.Sometime(Step, init, es, n, (s: State) => s.shut), Runs.Sometime(Step, init, es, n, Refuses))
  }

  /**
   One step of a call.  A blocking call appends its task if and only if it gets its turn before the
   shutdown, and returns true in any case.  Another call returns false if it finds the queue shut, and
   otherwise goes on to a second look, in which it appends its task and returns true if and only if there
   is room, also after the shutdown.
   */
  lemma TurnDecides(s: State, p: nat)
    requires Inv(s) && Known(s) && Enabled(s, Produce(p))
    ensures var s', t, first := Next(s, Produce(p)), s.producers[p].task, s.producers[p].CheckShutdown?;
      && t < s.calls == s'.calls && p < |s'.producers| == |s.producers|
      && if first && !s.shut then
           && s'.producers[p] == TryPush(t) && t !in s'.returnedTrue && s'.enqueued[t] == 0
         else
           var block := s.producers[p].Push?;
           var appends := if block then !s.shut else !first && HasRoom(s);
           && Over(s', t) && (t in s'.returnedTrue <==> block || appends) && s'.enqueued[t] == (if appends then 1 else 0)
  {
    BroughtOnce(s, p);
    NumberedTask(s, p);
    var s', t := Next(s, Produce(p)), s.producers[p].task;
    forall q | 0 <= q < |s'.producers| && q != p && !s'.producers[q].Idle? ensures s'.producers[q].task != t {
      BroughtApart(s, p, q);
    }
  }

  /** Only producer `q` moves, if any, and it has nothing to do with task `t`. */
  ghost predicate Elsewhere(s: State, s': State, q: nat, t: nat)
  {
    && s.calls <= s'.calls
    && (t in s'.returnedTrue <==> t in s.returnedTrue) && s'.enqueued[t] == s.enqueued[t]
    && (s'.producers == s.producers
        || (q < |s.producers| == |s'.producers| && s'.producers == s.producers[q := s'.producers[q]]
            && (s.producers[q].Idle? || s.producers[q].task != t)
            && (s'.producers[q].Idle? || s'.producers[q].task != t)))
  }

  lemma ProducedElsewhere(s: State, p: nat, t: nat)
    requires Enabled(s, Produce(p)) && s.producers[p].task != t
    ensures Elsewhere(s, Next(s, Produce(p)), p, t)
  {
    hide NextOfProducer;
    var appended := IsProduced(s, p);
  }

  lemma CloserElsewhere(s: State, e: Event, t: nat)
    requires Enabled(s, e) && (e.Drain? || e.Stop? || e.Close?)
    ensures Elsewhere(s, Next(s, e), 0, t)
  {
    hide Next;
    var clears := IsTidied(s, e);
  }

  /** Other steps do nothing to the task, and to whoever brings it. */
  lemma OthersTurn(s: State, e: Event, t: nat) returns (q: nat)
    requires Enabled(s, e) && t < s.calls
    requires e.Produce? ==> s.producers[e.p].task != t
    ensures Elsewhere(s, Next(s, e), q, t)
  {
    hide NextOfProducer, NextOfCloser;
    q := 0;
    match e
    case TryEnqueue(p, _) => q := p;
    case Produce(p) =>
      q := p;
      ProducedElsewhere(s, p, t);
    case Work(w) =>
    case _ => CloserElsewhere(s, e, t);
  }

  lemma ElsewhereKeeps(s: State, s': State, q: nat, t: nat)
    requires Elsewhere(s, s', q, t)
    ensures Over(s', t) <==> Over(s, t)
    ensures |s'.producers| == |s.producers|
    ensures forall p :: 0 <= p < |s.producers| && !s.producers[p].Idle? && s.producers[p].task == t ==>
              s'.producers[p] == s.producers[p]
  {
    if s'.producers != s.producers {
      forall p | 0 <= p < |s.producers| && p != q ensures s'.producers[p] == s.producers[p] {}
      if !Over(s, t) {
        var p :| 0 <= p < |s.producers| && !s.producers[p].Idle? && s.producers[p].task == t;
        assert s'.producers[p] == s.producers[p];
      }
    }
  }

  lemma StandingStays(s: State, e: Event, t: nat, p: nat, block: bool, active: bool, shut: bool, refused: bool)
    requires Inv(s) && Known(s) && Enabled(s, e) && Standing(s, t, p, block, active, shut, refused)
    ensures Standing(Next(s, e), t, p, block, active, shut || s.shut, refused || Refuses(s))
  {
    hide Inv, Known, Next, Placed;
    if e.Produce? && s.producers[e.p].task == t {
      TurnDecides(s, e.p);
      if !Over(s, t) { OnlyOneBrings(s, e.p, p); }
    } else {
      var q := OthersTurn(s, e, t);
      ElsewhereKeeps(s, Next(s, e), q, t);
    }
  }

  lemma CallStays(init: State, es: seq<Event>, n: nat, t: nat, p: nat, block: bool, active: bool)
    requires Initial(init) && es != [] && n <= |es| - 1 && CallInv(init, es[..|es| - 1], n, t, p, block, active)
    ensures CallInv(init, es, n, t, p, block, active)
  {
    hide Next, Inv, Known, Standing, Enabled;
    var front, e := es[..|es| - 1], es[|es| - 1];
    var s := Play(init, front);
    var shut := Runs.Sometime(Step, init, front, n, (s: State) => s.shut);
    var refused := Runs.Sometime(Step, init, front, n, Refuses);
    AlwaysKnown(init, front);
    if refused { Runs.SometimeStays(Step, init, es, n, Refuses); }
    if shut { Runs.SometimeStays(Step, init, es, n, (s: State) => s.shut); }
    if Refuses(s) { MomentBefore(init, es, n, Refuses); }
    if s.shut { MomentBefore(init, es, n, (s: State) => s.shut); }
    if Enabled(s, e) { StandingStays(s, e, t, p, block, active, shut, refused); }
    StandingGrows(Play(init, es), t, p, block, active);
  }

  /** What has been seen stays seen. */
  lemma StandingGrows(s: State, t: nat, p: nat, block: bool, active: bool)
    ensures forall shut, refused, shut', refused' ::
      Standing(s, t, p, block, active, shut, refused) && (shut ==> shut') && (refused ==> refused') ==>
        Standing(s, t, p, block, active, shut', refused')
  {}

  lemma OnlyOneBrings(s: State, p: nat, q: nat)
    requires Inv(s) && p < |s.producers| && !s.producers[p].Idle?
    requires q < |s.producers| && !s.producers[q].Idle? && s.producers[q].task == s.producers[p].task
    ensures p == q
  {
    if p != q { BroughtApart(s, p, q); }
  }

  lemma MomentBefore(init: State, es: seq<Event>, n: nat, p: State -> bool)
    requires es != [] && n <= |es| - 1 && p(Play(init, es[..|es| - 1]))
    ensures Runs.Sometime(Step, init, es, n, p)
  {
    Runs.SometimeNow(Step, init, es[..|es| - 1], n, p);
    Runs.SometimeStays(Step, init, es, n, p);
  }

  /** A call on an inactive pool is over at once; one on an active pool begins. */
  lemma CallBegins(init: State, es: seq<Event>, p: nat, block: bool)
    requires Initial(init) && Enabled(Play(init, es), TryEnqueue(p, block))
    ensures var s := Play(init, es);
      CallInv(init, es + [TryEnqueue(p, block)], |es| + 1, s.calls, p, block, s.active)
  {
    hide NextOfProducer;
    var s, e := Play(init, es), TryEnqueue(p, block);
    AlwaysKnown(init, es);
    NotYet(s, s.calls);
    assert (es + [e])[..|es + [e]| - 1] == es;
    var s' := Next(s, e);
    if s.active { assert !Over(s', s.calls) by { assert s'.producers[p].task == s.calls; } }
  }

  lemma {:induction false} CallGoesOn(init: State, es: seq<Event>, p: nat, block: bool, fs: seq<Event>)
    requires Initial(init) && Enabled(Play(init, es), TryEnqueue(p, block))
    ensures var s := Play(init, es);
      CallInv(init, es + [TryEnqueue(p, block)] + fs, |es| + 1, s.calls, p, block, s.active)
  {
    hide CallInv, Enabled;
    var call, s := es + [TryEnqueue(p, block)], Play(init, es);
    if fs == [] {
      CallBegins(init, es, p, block);
      assert call + fs == call;
    } else {
      CallGoesOn(init, es, p, block, fs[..|fs| - 1]);
      assert (call + fs)[..|call + fs| - 1] == call + fs[..|fs| - 1];
      CallStays(init, call + fs, |es| + 1, s.calls, p, block, s.active);
    }
  }

  /**
   What `tryEnqueueTask` returns, from the call on, in any run `es` and whatever events `fs` follow the call.
   On a pool that has been made inactive, it is over at once, returns false, and its task is never
   enqueued.  Otherwise, once it is over: a blocking call has returned true, and its task has been enqueued,
   unless at some moment within the call the queue had been shut; another call has returned true if and
   only if its task has been enqueued, unless, within the call, the queue had been shut or was full.
   */
  lemma WhatTrueMeans(init: State, es: seq<Event>, p: nat, block: bool, fs: seq<Event>)
    requires Initial(init) && Enabled(Play(init, es), TryEnqueue(p, block))
    ensures var s, n, run := Play(init, es), |es| + 1, es + [TryEnqueue(p, block)] + fs;
      var s', t := Play(init, run), s.calls;
      if !s.active then
        Step(s, TryEnqueue(p, block)).producers[p] == Idle && t !in s'.returnedTrue && s'.enqueued[t] == 0
      else if !Over(s', t) then
        t !in s'.returnedTrue && s'.enqueued[t] == 0
      else if block then
        t in s'.returnedTrue && (s'.enqueued[t] == 0 ==> Runs.Sometime(Step, init, run, n, (s: State) => s.shut))
      else
        && (t in s'.returnedTrue <==> s'.enqueued[t] == 1)
        && (t !in s'.returnedTrue ==> Runs.Sometime(Step, init, run, n, Refuses))
  {
    CallGoesOn(init, es, p, block, fs);
    assert !Play(init, es).active ==> Step(Play(init, es), TryEnqueue(p, block)).producers[p] == Idle;
  }

  // ----- a shutdown ends

  // How many steps a worker, a producer, and a closer, have before them at most, with those that a task takes.

  function WorkLeft(w: Worker): int { if w.Run? then 2 else if w.WaitPop? then 1 else 0 }

  function CallLeft(p: Producer): int { if p.Idle? then 0 else if p.CheckShutdown? then 5 else 4 }

  function CloseLeft(c: Closer): int
  {
    match c
    case Open => 4
    case Poll => 3
    case Clear => 3
    case Shutdown(_) => 2
    case Join(_) => 1
    case Closed(_) => 0
  }

  function Left(s: State): int
  {
    3 * |s.queue| + Sum(s.workers, WorkLeft) + Sum(s.producers, CallLeft) + Sum(s.closers, CloseLeft)
  }

  /** A look at a queue that is not empty, or a call that is refused at once. */
  predicate Vain(s: State, e: Event)
  {
    e.TryEnqueue? || (e.Close? && e.c < |s.closers| && s.closers[e.c] == Poll && s.queue != [])
  }

  /** Once the pool is inactive, every step but those brings it nearer to the end. */
  lemma LeftFalls(s: State, e: Event)
    requires !s.active && Enabled(s, e)
    ensures !Next(s, e).active && Left(Next(s, e)) >= 0
    ensures if Vain(s, e) then Left(Next(s, e)) == Left(s) else Left(Next(s, e)) < Left(s)
  {
    hide NextOfProducer, NextOfCloser, NextOfWorker;
    LeftIsNat(Next(s, e));
    match e
    case TryEnqueue(_, _) =>
    case Produce(p) => ProduceFalls(s, p);
    case Work(w) => WorkFalls(s, w);
    case Drain(c) => SumUpdate(s.closers, c, Closed(false), CloseLeft);
    case Stop(c) => SumUpdate(s.closers, c, Closed(false), CloseLeft);
    case Close(c) => CloseFalls(s, c);
  }

  lemma LeftIsNat(s: State)
    ensures Left(s) >= 0
  {
    SumBounds(s.workers, WorkLeft);
    SumBounds(s.producers, CallLeft);
    SumBounds(s.closers, CloseLeft);
  }

  lemma ProduceFalls(s: State, p: nat)
    requires Enabled(s, Produce(p))
    ensures Left(NextOfProducer(s, p)) < Left(s) && NextOfProducer(s, p).active == s.active
  {
    SumUpdate(s.producers, p, NextOfProducer(s, p).producers[p], CallLeft);
  }

  lemma WorkFalls(s: State, w: nat)
    requires Enabled(s, Work(w))
    ensures Left(NextOfWorker(s, w)) < Left(s) && NextOfWorker(s, w).active == s.active
  {
    SumUpdate(s.workers, w, NextOfWorker(s, w).workers[w], WorkLeft);
  }

  lemma CloseFalls(s: State, c: nat)
    requires Enabled(s, Close(c))
    ensures var s' := NextOfCloser(s, c);
      s'.active == s.active && if Vain(s, Close(c)) then Left(s') == Left(s) else Left(s') < Left(s)
  {
    hide NextOfCloser, Enabled;
    CloseEffect(s, c);
    SumUpdate(s.closers, c, NextOfCloser(s, c).closers[c], CloseLeft);
  }

  lemma CloseEffect(s: State, c: nat)
    requires Enabled(s, Close(c))
    ensures var s' := NextOfCloser(s, c);
      && c < |s.closers| && c < |s'.closers| && s'.closers == s.closers[c := s'.closers[c]]
      && s'.workers == s.workers && s'.producers == s.producers && s'.active == s.active
      && if s.closers[c] == Poll && s.queue != [] then s' == s
         else |s'.queue| <= |s.queue| && CloseLeft(s'.closers[c]) < CloseLeft(s.closers[c])
  {
    var s' := NextOfCloser(s, c);
    match s.closers[c]
    case Poll => assert s'.closers[c] == if s.queue == [] then Shutdown(true) else Poll;
    case Clear => assert s'.closers[c] == Shutdown(false);
    case Shutdown(drain) => assert s'.closers[c] == Join(drain);
    case Join(drain) => assert s'.closers[c] == Closed(true);
  }

  /** The closer performs, and has not yet shut the queue. */
  predicate BeforeJoin(c: Closer)
  {
    c == Poll || c == Clear || c.Shutdown?
  }

  /** The queue is shut by the closer that performs, and workers exit after that. */
  ghost predicate Sound(s: State)
  {
    && (s.shut ==> forall c :: 0 <= c < |s.closers| ==> !BeforeJoin(s.closers[c]))
    && (forall w :: 0 <= w < |s.workers| && s.workers[w] == Exited ==> s.shut)
  }

  lemma SoundStep(s: State, e: Event)
    requires Inv(s) && Sound(s) && Enabled(s, e)
    ensures Sound(Next(s, e))
  {
    hide Inv, Next, NextOfCloser, Placed;
    match e
    case TryEnqueue(_, _) => SoundOthers(s, e);
    case Produce(_) => SoundOthers(s, e);
    case Work(_) => SoundOthers(s, e);
    case _ => SoundClose(s, e);
  }

  lemma SoundOthers(s: State, e: Event)
    requires Sound(s) && Enabled(s, e) && (e.TryEnqueue? || e.Produce? || e.Work?)
    ensures Sound(Next(s, e))
  {}

  lemma SoundClose(s: State, e: Event)
    requires Inv(s) && Sound(s) && Enabled(s, e) && (e.Drain? || e.Stop? || e.Close?)
    ensures Sound(Next(s, e))
  {
    hide Next, Placed;
    var s', c := Next(s, e), e.c;
    var clears := IsTidied(s, e);
    IsClosing(s, e);
    if s'.shut {
      forall d | 0 <= d < |s'.closers| ensures !BeforeJoin(s'.closers[d]) {
        if d != c {
          assert s'.closers[d] == s.closers[d];
          if !s.shut { OnePerforms(s, c, d); }
        } else {
          ShutGoesOn(s, e);
        }
      }
    }
  }

  /** The closer whose step shuts the queue joins next, and one that finds it shut does not go back. */
  lemma ShutGoesOn(s: State, e: Event)
    requires Sound(s) && Enabled(s, e) && (e.Drain? || e.Stop? || e.Close?) && (s.shut ==> !s.active)
    requires Next(s, e).shut && e.c < |Next(s, e).closers|
    ensures !BeforeJoin(Next(s, e).closers[e.c])
  {}

  lemma {:induction false} AlwaysSound(init: State, es: seq<Event>)
    requires Initial(init)
    ensures Sound(Play(init, es)) && Inv(Play(init, es))
  {
    hide Inv, Next, Sound, Enabled;
    InitialInv(init);
    PlayInv(init, es);
    if es == [] {
      SoundAtFirst(init);
    } else {
      AlwaysSound(init, es[..|es| - 1]);
      if Enabled(Play(init, es[..|es| - 1]), es[|es| - 1]) { SoundStep(Play(init, es[..|es| - 1]), es[|es| - 1]); }
    }
  }

  lemma SoundAtFirst(init: State)
    requires Initial(init)
    ensures Sound(init)
  {}

  /**
   A shutdown ends.  Once a call of either kind has made the pool inactive, each step of a worker, a producer
   or a closer, but for a look at a queue that is not yet empty, brings it nearer to the end (`LeftFalls`);
   and until that call has returned, there is such a step to make, provided the pool has a worker.
   */
  lemma ShutdownGoesOn(init: State, es: seq<Event>, c: nat) returns (e: Event)
    requires Initial(init) && |init.workers| > 0
    requires var s := Play(init, es); c < |s.closers| && s.closers[c] != Open && !s.closers[c].Closed?
    ensures var s := Play(init, es);
      && !s.active && Enabled(s, e) && !Vain(s, e) && (e.Work? || e == Close(c))
      && 0 <= Left(Next(s, e)) < Left(s)
  {
    hide Left, Vain, Next, Placed, Step;
    AlwaysSound(init, es);
    PlaySizes(init, es);
    var s := Play(init, es);
    assert CloserInv(s, s.closers[c]);
    e := GoesOn(s, c);
    LeftFalls(s, e);
  }

  lemma GoesOn(s: State, c: nat) returns (e: Event)
    requires Sound(s) && |s.workers| > 0 && c < |s.closers| && s.closers[c] != Open && !s.closers[c].Closed?
    requires s.closers[c].Join? ==> s.shut
    ensures Enabled(s, e) && !Vain(s, e) && (e.Work? || e == Close(c))
  {
    e := Close(c);
    if s.closers[c] == Poll && s.queue != [] {
      e := Work(0);
    } else if s.closers[c].Join? && !AllExited(s) {
      var w :| 0 <= w < |s.workers| && s.workers[w] != Exited;
      e := Work(w);
    }
  }

  lemma {:induction false} PlaySizes(init: State, es: seq<Event>)
    ensures |Play(init, es).workers| == |init.workers|
  {
    hide Step;
    if es != [] {
      PlaySizes(init, es[..|es| - 1]);
      StepSizes(Play(init, es[..|es| - 1]), es[|es| - 1]);
    }
  }

  lemma StepSizes(s: State, e: Event)
    ensures |Step(s, e).workers| == |s.workers|
  {}

  /** Only the first call of either kind performs the shutdown; any other returns at once and changes nothing. */
  lemma FirstCallPerforms(s: State, e: Event)
    requires Inv(s) && Enabled(s, e) && (e.Drain? || e.Stop?)
    ensures var s' := Next(s, e);
      && e.c < |s'.closers| && !s'.active && s'.queue == s.queue && s'.workers == s.workers && s'.shut == s.shut
      && (s.active <==> Performs(s'.closers[e.c]) == 1)
      && (s.active ==> (e.Drain? <==> Draining(s'.closers[e.c])))
      && (!s.active ==> s'.closers[e.c].Closed? && s' == s.(closers := s'.closers))
  {}

  /** One worker, one thread that enqueues, and one that drains the pool; nothing has happened. */
  const Fresh: State :=
    State(0, [], false, true, [WaitPop], [Idle], [Open], 0, multiset{}, multiset{}, multiset{}, {}, {})

  /** The blocking call returns true after the drain has shut the queue, and its task is nowhere. */
  lemma TrueButDropped()
    ensures Initial(Fresh)
    ensures var s := Play(Fresh, [TryEnqueue(0, true), Drain(0), Close(0), Close(0), Produce(0)]);
      s.returnedTrue == {0} && s.enqueued == multiset{} && s.queue == [] && s.shut
  {
    hide Step;
    Runs.PlayFive(Step, Fresh, TryEnqueue(0, true), Drain(0), Close(0), Close(0), Produce(0));
    var s1 := Called(Fresh, true);
    var s2 := Shuts(s1);
    LateBlocking(s2);
  }

  /** The other call finds the queue open; the drain returns; then the task is appended, and never runs. */
  lemma TrueButLeft(es: seq<Event>)
    ensures Initial(Fresh)
    ensures var s := Play(Fresh, [TryEnqueue(0, false), Produce(0), Drain(0), Close(0), Close(0)]
                                 + [Work(0), Close(0), Produce(0)]);
      && s.closers == [Closed(true)] && s.returnedTrue == {0} && s.queue == [0]
      && Play(s, es).done == multiset{}
  {
    hide Step, Runs.Play;
    var front, back := [TryEnqueue(0, false), Produce(0), Drain(0), Close(0), Close(0)], [Work(0), Close(0), Produce(0)];
    Runs.PlayConcat(Step, Fresh, front, back);
    Runs.PlayFive(Step, Fresh, TryEnqueue(0, false), Produce(0), Drain(0), Close(0), Close(0));
    var s1 := Called(Fresh, false);
    var s2 := FindsOpen(s1);
    var s3 := Shuts(s2);
    Runs.PlayThree(Step, s3, Work(0), Close(0), Produce(0));
    var s4 := LateTry(s3);
    NobodyWorks(s4, es);
  }

  lemma Called(s0: State, block: bool) returns (s: State)
    requires s0.active && s0.producers == [Idle] && s0.calls == 0
    ensures s == s0.(calls := 1, producers := [if block then Push(0) else CheckShutdown(0)])
    ensures s == Step(s0, TryEnqueue(0, block))
  {
    s := Step(s0, TryEnqueue(0, block));
    assert s.producers == [if block then Push(0) else CheckShutdown(0)];
  }

  lemma FindsOpen(s0: State) returns (s: State)
    requires !s0.shut && s0.producers == [CheckShutdown(0)]
    ensures s == s0.(producers := [TryPush(0)])
    ensures s == Step(s0, Produce(0))
  {
    s := Step(s0, Produce(0));
    assert s.producers == [TryPush(0)];
  }

  lemma Shuts(s0: State) returns (s: State)
    requires s0.active && s0.queue == [] && s0.closers == [Open] && s0.returnedTrue == s0.before
    ensures s == s0.(active := false, shut := true, closers := [Join(true)])
    ensures s == Step(Step(Step(s0, Drain(0)), Close(0)), Close(0))
  {
    var s1 := Step(s0, Drain(0));
    assert s1 == s0.(active := false, closers := [Poll]);
    var s2 := Step(s1, Close(0));
    assert s2 == s1.(closers := [Shutdown(true)]);
    s := Step(s2, Close(0));
    assert s == s2.(closers := [Join(true)], shut := true);
  }

  lemma LateBlocking(s: State)
    requires s.shut && s.producers == [Push(0)] && s.returnedTrue == {}
    ensures Step(s, Produce(0)) == s.(producers := [Idle], returnedTrue := {0})
  {
    var s' := Step(s, Produce(0));
    assert s'.returnedTrue == {} + {0} && s'.producers == [Idle];
  }

  lemma LateTry(s0: State) returns (s: State)
    requires s0.shut && s0.queue == [] && s0.maxSize == 0 && s0.workers == [WaitPop] && s0.closers == [Join(true)]
    requires s0.producers == [TryPush(0)] && s0.returnedTrue == {} && s0.enqueued == multiset{}
    ensures s == s0.(workers := [Exited], closers := [Closed(true)], producers := [Idle], queue := [0],
                     enqueued := multiset{0}, returnedTrue := {0})
    ensures s == Step(Step(Step(s0, Work(0)), Close(0)), Produce(0))
  {
    var s1 := Step(s0, Work(0));
    assert s1 == s0.(workers := [Exited]);
    var s2 := Step(s1, Close(0));
    assert s2 == s1.(closers := [Closed(true)]);
    s := Step(s2, Produce(0));
    assert s.returnedTrue == {} + {0} && s.producers == [Idle] && s.queue == [] + [0];
    assert s.enqueued == multiset{} + multiset{0};
  }
}
