/**
 The blocking queue: an inner queue, and a semaphore with one token for every item in it.  Producers
 put items into the inner queue and then signal; consumers wait for tokens, and then spin on the
 inner queue until they have as many items as tokens.

 The inner queue is abstract: a bag of items from which an attempt may take fewer than are there, or
 none.  `accepted` and `delivered` are history variables.
 */
module BlockingQueue {
  import opened Counting
  import opened Wrappers
  import Runs
  import Semaphore

  datatype Role =
    | Free
    | Announcing                                                      // in sema->signal
    | Waiting(max: nat, patience: Semaphore.Patience, again: bool)    // in sema->wait, tryWait, ...
    | Collecting(need: nat)                                           // spinning on inner.try_dequeue

  datatype State<T> = State(
    sema: Semaphore.State,
    inner: multiset<T>,
    roles: seq<Role>,
    accepted: multiset<T>,
    delivered: multiset<T>)

  datatype Event<T> =
    | Enqueue(t: nat, xs: seq<T>)      // the inner queue has accepted the items
    | Dequeue(t: nat, max: nat, patience: Semaphore.Patience, again: bool)
    | Advance(t: nat)                  // the next step of t within the semaphore
    | GiveUp(t: nat)
    | Collect(t: nat, xs: seq<T>)      // an attempt on the inner queue yields the items

  ghost predicate Initial<T>(s: State<T>)
  {
    && Semaphore.Initial(s.sema, 0)
    && |s.roles| == |s.sema.pcs| && (forall t :: 0 <= t < |s.roles| ==> s.roles[t] == Free)
    && s.inner == s.accepted == s.delivered == multiset{}
  }

  function SemaEvent<T>(e: Event<T>): Semaphore.Event
    requires !e.Collect?
  {
    match e
    case Enqueue(t, xs) => Semaphore.Signal(t, |xs|)
    case Dequeue(t, max, patience, _) => Semaphore.Wait(t, max, patience)
    case Advance(t) => Semaphore.Advance(t)
    case GiveUp(t) => Semaphore.GiveUp(t)
  }

  predicate Enabled<T>(s: State<T>, e: Event<T>)
  {
    e.t < |s.roles| &&
    match e
    case Enqueue(t, _) => s.roles[t] == Free && Semaphore.Enabled(s.sema, SemaEvent(e))
    case Dequeue(t, _, _, _) => s.roles[t] == Free && Semaphore.Enabled(s.sema, SemaEvent(e))
    case Advance(t) => Semaphore.Enabled(s.sema, SemaEvent(e))
    case GiveUp(t) => Semaphore.Enabled(s.sema, SemaEvent(e))
    case Collect(t, xs) => s.roles[t].Collecting? && |xs| <= s.roles[t].need && multiset(xs) <= s.inner
  }

  function SetRole<T>(s: State<T>, t: nat, role: Role): State<T>
    requires t < |s.roles|
  {
    s.(roles := s.roles[t := role])
  }

  function Next<T>(s: State<T>, e: Event<T>): State<T>
    requires Enabled(s, e)
  {
    match e
    case Enqueue(t, xs) =>
      SetRole(s, t, Announcing).(sema := Semaphore.Next(s.sema, SemaEvent(e)),
                                 inner := s.inner + multiset(xs), accepted := s.accepted + multiset(xs))
    case Dequeue(t, max, patience, again) =>
      SetRole(s, t, Waiting(max, patience, again)).(sema := Semaphore.Next(s.sema, SemaEvent(e)))
    case Advance(t) => AfterCall(s.(sema := Semaphore.Next(s.sema, SemaEvent(e))), t)
    case GiveUp(t) => AfterCall(s.(sema := Semaphore.Next(s.sema, SemaEvent(e))), t)
    case Collect(t, xs) =>
      var need := s.roles[t].need - |xs|;
      SetRole(s, t, if need == 0 then Free else Collecting(need)).(
        inner := s.inner - multiset(xs), delivered := s.delivered + multiset(xs))
  }

  /** What the thread does once its call of the semaphore, if it has returned, is over. */
  function AfterCall<T>(s: State<T>, t: nat): State<T>
    requires t < |s.roles| && t < |s.sema.pcs|
  {
    if s.sema.pcs[t] != Semaphore.Idle then s
    else
      match s.roles[t]
      case Waiting(max, patience, again) =>
        var got := if s.sema.results == [] then 0 else s.sema.results[|s.sema.results| - 1].got;
        if got > 0 then SetRole(s, t, Collecting(got))
        else if again then s.(sema := Semaphore.Next(s.sema, Semaphore.Wait(t, max, patience)))
        else SetRole(s, t, Free)
      case Announcing => SetRole(s, t, Free)
      case Collecting(_) => s
      case Free => s
  }

  /** An event that is not enabled when its turn comes changes nothing. */
  function Step<T>(s: State<T>, e: Event<T>): State<T>
  {
    if |s.roles| == |s.sema.pcs| && Enabled(s, e) then Next(s, e) else s
  }

  function Play<T>(s: State<T>, es: seq<Event<T>>): State<T>
  {
    Runs.Play(Step<T>, s, es)
  }

  // ----- the invariant

  /** Items put into the inner queue and not yet signalled. */
  function Unsignalled(pc: Semaphore.Pc): int
  {
    if pc.Add? then pc.n else 0
  }

  /** Items a thread has tokens for and is still spinning for. */
  function Needs(role: Role): int
  {
    if role.Collecting? then role.need else 0
  }

  predicate RoleOk(role: Role, pc: Semaphore.Pc)
  {
    match role
    case Free => pc == Semaphore.Idle
    case Announcing => pc.Add? || pc.Post?
    case Waiting(_, _, _) => pc != Semaphore.Idle && !pc.Add? && !pc.Post?
    case Collecting(need) => need > 0 && pc == Semaphore.Idle
  }

  function Signals(s: Semaphore.State): int { Sum(s.pcs, Unsignalled) }

  function Needed<T>(s: State<T>): int { Sum(s.roles, Needs) }

  ghost predicate Inv<T>(s: State<T>)
  {
    && Semaphore.Inv(s.sema, 0)
    && |s.roles| == |s.sema.pcs| && (forall t :: 0 <= t < |s.roles| ==> RoleOk(s.roles[t], s.sema.pcs[t]))
    && s.accepted == s.inner + s.delivered
    && |s.accepted| == s.sema.signalled + Signals(s.sema)
    && |s.delivered| + Needed(s) == Semaphore.Granted(s.sema)
  }

  lemma InitialInv<T>(s: State<T>)
    requires Initial(s)
    ensures Inv(s)
  {
    Semaphore.InitialInv(s.sema, 0);
    SumConstant(s.sema.pcs, Unsignalled, 0);
    SumConstant(s.roles, Needs, 0);
  }

  /** A step within the semaphore: what it does to the thread's program counter, and to the history. */
  lemma SemaStep(s: Semaphore.State, e: Semaphore.Event)
    requires Semaphore.Inv(s, 0) && Semaphore.Enabled(s, e)
    ensures var s', t := Semaphore.Next(s, e), e.t;
      && Semaphore.Inv(s', 0) && s'.pcs == s.pcs[t := s'.pcs[t]]
      && Semaphore.Granted(s') == Semaphore.Granted(s) + Semaphore.GotIn(s, s')
      && Signals(s') == Signals(s) - Unsignalled(s.pcs[t]) + Unsignalled(s'.pcs[t])
      && (|s'.results| > |s.results| ==> |s'.results| == |s.results| + 1)
  {
    Semaphore.StepInv(s, e, 0);
    Semaphore.StepBalanced(s, e);
    var s' := Semaphore.Next(s, e);
    SumUpdate(s.pcs, e.t, s'.pcs[e.t], Unsignalled);
    if |s'.results| > |s.results| {
      SumAppend(s.results, s'.results[|s.results|], Semaphore.Got);
    }
  }

  /** Within a call, a thread that waits goes on waiting until the call returns, and then has a result. */
  lemma CallGoesOn(s: Semaphore.State, e: Semaphore.Event)
    requires Semaphore.Enabled(s, e) && !e.Wait? && !e.Signal?
    ensures var s', pc, pc' := Semaphore.Next(s, e), s.pcs[e.t], Semaphore.Next(s, e).pcs[e.t];
      if pc.Add? || pc.Post? then
        && (pc' == Semaphore.Idle || pc'.Post?) && s'.results == s.results
        && s'.signalled == s.signalled + Unsignalled(pc)
      else
        && !pc'.Add? && !pc'.Post? && s'.signalled == s.signalled
        && (pc' == Semaphore.Idle <==> |s'.results| > |s.results|)
  {}

  /** The thread's role after its call has gone on, or returned with `got` tokens. */
  lemma RolesKept<T>(s: State<T>, s': State<T>, t: nat)
    requires |s.roles| == |s.sema.pcs| == |s'.roles| == |s'.sema.pcs| && t < |s.roles|
    requires forall d :: 0 <= d < |s.roles| ==> RoleOk(s.roles[d], s.sema.pcs[d])
    requires s'.roles == s.roles[t := s'.roles[t]] && s'.sema.pcs == s.sema.pcs[t := s'.sema.pcs[t]]
    requires RoleOk(s'.roles[t], s'.sema.pcs[t])
    ensures forall d :: 0 <= d < |s'.roles| ==> RoleOk(s'.roles[d], s'.sema.pcs[d])
    ensures Needed(s') == Needed(s) - Needs(s.roles[t]) + Needs(s'.roles[t])
  {
    SumUpdate(s.roles, t, s'.roles[t], Needs);
  }

  lemma EnqueueInv<T>(s: State<T>, e: Event<T>)
    requires Inv(s) && Enabled(s, e) && (e.Enqueue? || e.Dequeue?)
    ensures Inv(Next(s, e))
  {
    SemaStep(s.sema, SemaEvent(e));
    var s' := Next(s, e);
    RolesKept(s, s', e.t);
  }

  lemma CollectInv<T>(s: State<T>, e: Event<T>)
    requires Inv(s) && Enabled(s, e) && e.Collect?
    ensures Inv(Next(s, e))
  {
    RolesKept(s, Next(s, e), e.t);
  }

  /** A call goes on; when it returns, its tokens become the thread's need, or it is made again. */
  lemma CallInv<T>(s: State<T>, e: Event<T>)
    requires Inv(s) && Enabled(s, e) && (e.Advance? || e.GiveUp?)
    ensures Inv(Next(s, e))
  {
    hide Semaphore.Inv, Semaphore.Move, Semaphore.Next;
    var t, s', sema := e.t, Next(s, e), Semaphore.Next(s.sema, SemaEvent(e));
    SemaStep(s.sema, SemaEvent(e));
    CallGoesOn(s.sema, SemaEvent(e));
    if sema.pcs[t] == Semaphore.Idle && s.roles[t].Waiting? && s'.roles == s.roles {
      CallAgain(s, e);
    }
    RolesKept(s, s', t);
  }

  /** `wait_dequeue` calls `wait` again when that has returned without a token. */
  lemma CallAgain<T>(s: State<T>, e: Event<T>)
    requires Inv(s) && Enabled(s, e) && (e.Advance? || e.GiveUp?)
    requires Next(s, e).roles == s.roles && s.roles[e.t].Waiting?
    requires var pcs := Semaphore.Next(s.sema, SemaEvent(e)).pcs; e.t < |pcs| && pcs[e.t] == Semaphore.Idle
    ensures var s', sema := Next(s, e), Semaphore.Next(s.sema, SemaEvent(e));
      && s'.sema.pcs == sema.pcs[e.t := s'.sema.pcs[e.t]]
      && s'.sema.pcs[e.t].TryLoad? && sema.pcs[e.t] == Semaphore.Idle
      && Semaphore.Inv(s'.sema, 0) && Semaphore.Granted(s'.sema) == Semaphore.Granted(sema)
      && s'.sema.signalled == sema.signalled && Signals(s'.sema) == Signals(sema)
  {
    var sema, role := Semaphore.Next(s.sema, SemaEvent(e)), s.roles[e.t];
    SemaStep(s.sema, SemaEvent(e));
    assert s.roles[e.t := Free][e.t] != role && s.roles[e.t := Collecting(1)][e.t] != role;
    SemaStep(sema, Semaphore.Wait(e.t, role.max, role.patience));
  }

  lemma StepInv<T>(s: State<T>, e: Event<T>)
    requires Inv(s) && Enabled(s, e)
    ensures Inv(Next(s, e))
  {
    match e
    case Enqueue(_, _) => EnqueueInv(s, e);
    case Dequeue(_, _, _, _) => EnqueueInv(s, e);
    case Advance(_) => CallInv(s, e);
    case GiveUp(_) => CallInv(s, e);
    case Collect(_, _) => CollectInv(s, e);
  }

  // ----- runs

  lemma PlayInv<T(!new)>(s: State<T>, es: seq<Event<T>>)
    requires Inv(s)
    ensures Inv(Play(s, es))
  {
    forall s: State<T>, e: Event<T> | Inv(s) ensures Inv(Step(s, e)) {
      if Enabled(s, e) { StepInv(s, e); }
    }
    Runs.PlayKeeps(Step<T>, (s: State<T>) => Inv(s), s, es);
  }

  /** What is in the inner queue: an item for each token, wherever that is, and for each token still to be signalled. */
  lemma ItemsBehindTokens<T>(s: State<T>)
    requires Inv(s)
    ensures |s.inner| == Needed(s) + Semaphore.Held(s.sema) + Max(s.sema.count, 0) + s.sema.kernel
                         + Semaphore.Unposted(s.sema) + Signals(s.sema)
    ensures Needed(s) >= 0 && Semaphore.Held(s.sema) >= 0 && Semaphore.Unposted(s.sema) >= 0 && Signals(s.sema) >= 0
    ensures forall t :: 0 <= t < |s.roles| ==> Needs(s.roles[t]) <= Needed(s)
  {
    assert |s.accepted| == |s.inner| + |s.delivered|;
    Semaphore.NonNegative(s.sema);
    SumBounds(s.sema.pcs, Unsignalled);
    SumBounds(s.roles, Needs);
  }

  /**
   In every run: the available tokens plus all that spinning consumers still need never exceed the
   items in the inner queue, so no consumer ever spins on an empty inner queue; and every item that
   has been accepted is either still there or has been delivered, as often as it was accepted.
   */
  lemma TokensHaveItems<T(!new)>(init: State<T>, es: seq<Event<T>>)
    requires Initial(init)
    ensures var s := Play(init, es);
      && Max(s.sema.count, 0) + Needed(s) <= |s.inner|
      && (forall t :: 0 <= t < |s.roles| && s.roles[t].Collecting? ==> 0 < s.roles[t].need <= |s.inner|)
      && s.accepted == s.inner + s.delivered
  {
    InitialInv(init);
    PlayInv(init, es);
    var s := Play(init, es);
    ItemsBehindTokens(s);
    forall t | 0 <= t < |s.roles| && s.roles[t].Collecting?
      ensures 0 < s.roles[t].need <= |s.inner|
    {
      assert RoleOk(s.roles[t], s.sema.pcs[t]);
      assert Needs(s.roles[t]) == s.roles[t].need;
    }
  }

  /** Every thread is idle or sleeps in the kernel, which has no token for it. */
  ghost predicate Asleep<T>(s: State<T>)
  {
    Semaphore.Asleep(s.sema) && forall t :: 0 <= t < |s.roles| ==> !s.roles[t].Collecting?
  }

  /** Nobody sleeps for good beside an item: when nobody can move and somebody sleeps, the queue is empty. */
  lemma SleepersMissNoItem<T(!new)>(init: State<T>, es: seq<Event<T>>, t: nat)
    requires Initial(init)
    requires var s := Play(init, es); Asleep(s) && t < |s.sema.pcs| && s.sema.pcs[t].Block?
    ensures var s := Play(init, es); s.inner == multiset{} && s.delivered == s.accepted
  {
    InitialInv(init);
    PlayInv(init, es);
    var s := Play(init, es);
    ItemsBehindTokens(s);
    Semaphore.NonNegative(s.sema);
    assert Semaphore.Waits(s.sema.pcs[t]) == 1;
    SumConstant(s.sema.pcs, Semaphore.Holds, 0);
    SumConstant(s.sema.pcs, Semaphore.Posts, 0);
    SumConstant(s.sema.pcs, Unsignalled, 0);
    SumConstant(s.roles, Needs, 0);
    assert |s.inner| == 0;
  }

  // ----- what a call gets

  /** The event takes place, and begins a call of thread `t`. */
  predicate Begins<T>(s: State<T>, e: Event<T>, t: nat)
  {
    (e.Enqueue? || e.Dequeue?) && e.t == t && |s.roles| == |s.sema.pcs| && Enabled(s, e)
  }

  /** The event that began the latest call of thread `t`. */
  function Call<T>(init: State<T>, es: seq<Event<T>>, t: nat): Option<Event<T>>
  {
    if es == [] then None
    else if Begins(Play(init, es[..|es| - 1]), es[|es| - 1], t) then Some(es[|es| - 1])
    else Call(init, es[..|es| - 1], t)
  }

  /** How many items that call has taken from the inner queue. */
  function Taken<T>(init: State<T>, es: seq<Event<T>>, t: nat): nat
  {
    if es == [] then 0
    else
      var s, e := Play(init, es[..|es| - 1]), es[|es| - 1];
      if Begins(s, e, t) then 0
      else Taken(init, es[..|es| - 1], t)
           + if e.Collect? && e.t == t && |s.roles| == |s.sema.pcs| && Enabled(s, e) then |e.xs| else 0
  }

  /** The kernel has ended a wait of that call without a token. */
  predicate GaveUp<T>(init: State<T>, es: seq<Event<T>>, t: nat)
  {
    es != [] &&
    var s, e := Play(init, es[..|es| - 1]), es[|es| - 1];
    !Begins(s, e, t) &&
    (GaveUp(init, es[..|es| - 1], t) || (e.GiveUp? && e.t == t && |s.roles| == |s.sema.pcs| && Enabled(s, e)))
  }

  /** At some moment of that call, the semaphore had no token in its counter. */
  predicate FoundNone<T>(init: State<T>, es: seq<Event<T>>, t: nat)
  {
    Play(init, es).sema.count <= 0 ||
    (es != [] && !Begins(Play(init, es[..|es| - 1]), es[|es| - 1], t) && FoundNone(init, es[..|es| - 1], t))
  }

  /** How a call stands that began with `call`. */
  ghost predicate Standing<T>(role: Role, pc: Semaphore.Pc, call: Event<T>, taken: nat, gaveUp: bool, none: bool)
  {
    match call
    case Enqueue(_, _) => (role == Announcing || role == Free) && taken == 0
    case Dequeue(_, max, patience, again) =>
      var excused := max == 0 || patience == Semaphore.Try || patience == Semaphore.Poll || gaveUp;
      (match role
       case Free => taken <= max && (taken == 0 ==> excused && !again) && (taken < max ==> none)
       case Announcing => false
       case Waiting(m, p, a) =>
         && m == max && p == patience && a == again && taken == 0
         && Semaphore.Pending(pc) == [Semaphore.Request(max, patience)] && (Semaphore.Undoing(pc) ==> excused)
       case Collecting(need) => taken + need <= max && (taken + need < max ==> none))
    case _ => false
  }

  ghost predicate CallStands<T>(init: State<T>, es: seq<Event<T>>, t: nat)
  {
    var s := Play(init, es);
    t < |s.roles| == |s.sema.pcs| ==>
      if Call(init, es, t) == None then s.roles[t] == Free
      else Standing(s.roles[t], s.sema.pcs[t], Call(init, es, t).value, Taken(init, es, t), GaveUp(init, es, t),
                    FoundNone(init, es, t))
  }

  /** A step changes one thread's role and program counter. */
  lemma ChangesOne<T>(s: State<T>, e: Event<T>)
    requires Inv(s) && Enabled(s, e)
    ensures var s' := Next(s, e);
      && |s'.roles| == |s.roles| == |s'.sema.pcs| == |s.sema.pcs|
      && s'.roles == s.roles[e.t := s'.roles[e.t]] && s'.sema.pcs == s.sema.pcs[e.t := s'.sema.pcs[e.t]]
  {
    hide Semaphore.Inv, Semaphore.Move, Semaphore.Next;
    if !e.Collect? {
      SemaStep(s.sema, SemaEvent(e));
      if (e.Advance? || e.GiveUp?) && Semaphore.Next(s.sema, SemaEvent(e)).pcs[e.t] == Semaphore.Idle
         && s.roles[e.t].Waiting? && Next(s, e).roles == s.roles {
        CallAgain(s, e);
      }
    }
  }

  /** What a step of the semaphore does for the thread that waits. */
  lemma WaitGoesOn(s: Semaphore.State, e: Semaphore.Event)
    requires Semaphore.Inv(s, 0) && Semaphore.Enabled(s, e) && !e.Wait? && !e.Signal?
    requires Semaphore.Pending(s.pcs[e.t]) != []
    ensures var s', pc, pc' := Semaphore.Next(s, e), s.pcs[e.t], Semaphore.Next(s, e).pcs[e.t];
      if pc' != Semaphore.Idle then
        && Semaphore.Pending(pc') == Semaphore.Pending(pc) && !pc'.Add? && !pc'.Post?
        && (Semaphore.Undoing(pc') ==> Semaphore.Undoing(pc) || e.GiveUp? || pc'.patience == Semaphore.Poll)
      else
        && s'.results != []
        && var r := s'.results[|s'.results| - 1];
           && Semaphore.ReturnOk(r) && Semaphore.Pending(pc) == [Semaphore.Request(r.max, r.patience)]
           && (r.gaveUp ==> Semaphore.Undoing(pc)) && (r.got < r.max ==> s.count <= 0 || s'.count == 0)
  {
    hide Semaphore.Inv, Semaphore.Next, Semaphore.Move;
    PcOkOf(s, e.t);
    CallGoesOn(s, e);
    Semaphore.MoveKeepsTerms(s, e);
    Semaphore.GivesUpForAReason(s, e);
    Semaphore.StepBalanced(s, e);
    if |Semaphore.Next(s, e).results| > |s.results| { Semaphore.ShortMeansNoneLeft(s, e); }
  }

  lemma PcOkOf(s: Semaphore.State, t: nat)
    requires Semaphore.Inv(s, 0) && t < |s.pcs|
    ensures Semaphore.PcOk(s.pcs[t])
  {}

  lemma CallStep<T>(s: State<T>, e: Event<T>, call: Event<T>, taken: nat, gaveUp: bool, none: bool)
    requires Inv(s) && Enabled(s, e) && (e.Advance? || e.GiveUp?)
    requires Standing(s.roles[e.t], s.sema.pcs[e.t], call, taken, gaveUp, none)
    ensures var s' := Next(s, e);
      && e.t < |s'.roles| == |s'.sema.pcs|
      && Standing(s'.roles[e.t], s'.sema.pcs[e.t], call, taken, gaveUp || e.GiveUp?,
                  none || s.sema.count <= 0 || s'.sema.count <= 0)
  {
    hide Semaphore.Inv, Semaphore.Next, Semaphore.Move;
    ChangesOne(s, e);
    assert RoleOk(s.roles[e.t], s.sema.pcs[e.t]);
    var sema := Semaphore.Next(s.sema, SemaEvent(e));
    SemaStep(s.sema, SemaEvent(e));
    CallGoesOn(s.sema, SemaEvent(e));
    if s.roles[e.t].Waiting? {
      WaitGoesOn(s.sema, SemaEvent(e));
      if sema.pcs[e.t] == Semaphore.Idle {
        CallReturns(s, e, call, gaveUp, none);
      }
    }
  }

  /** The semaphore has returned: the tokens are what the thread needs, or there are none. */
  lemma CallReturns<T>(s: State<T>, e: Event<T>, call: Event<T>, gaveUp: bool, none: bool)
    requires Inv(s) && Enabled(s, e) && (e.Advance? || e.GiveUp?) && s.roles[e.t].Waiting?
    requires Standing(s.roles[e.t], s.sema.pcs[e.t], call, 0, gaveUp, none)
    requires e.t < |Semaphore.Next(s.sema, SemaEvent(e)).pcs|
    requires Semaphore.Next(s.sema, SemaEvent(e)).pcs[e.t] == Semaphore.Idle
    ensures var s' := Next(s, e);
      && e.t < |s'.roles| && e.t < |s'.sema.pcs|
      && Standing(s'.roles[e.t], s'.sema.pcs[e.t], call, 0, gaveUp || e.GiveUp?,
                  none || s.sema.count <= 0 || s'.sema.count <= 0)
  {
    hide Semaphore.Inv, Semaphore.Next, Semaphore.Move;
    var t, sema, role := e.t, Semaphore.Next(s.sema, SemaEvent(e)), s.roles[e.t];
    assert RoleOk(role, s.sema.pcs[t]);
    WaitGoesOn(s.sema, SemaEvent(e));
    var r := sema.results[|sema.results| - 1];
    assert Semaphore.Pending(s.sema.pcs[t])[0] == Semaphore.Request(r.max, r.patience);
    if r.got == 0 && role.again {
      Semaphore.Begun(sema, Semaphore.Wait(t, role.max, role.patience));
    }
  }

  lemma CollectStep<T>(s: State<T>, e: Event<T>, call: Event<T>, taken: nat, gaveUp: bool, none: bool)
    requires Inv(s) && Enabled(s, e) && e.Collect?
    requires Standing(s.roles[e.t], s.sema.pcs[e.t], call, taken, gaveUp, none)
    ensures var s' := Next(s, e); e.t < |s'.roles| && e.t < |s'.sema.pcs|
    ensures var s' := Next(s, e);
      Standing(s'.roles[e.t], s'.sema.pcs[e.t], call, taken + |e.xs|, gaveUp, none || s'.sema.count <= 0)
  {
    assert RoleOk(s.roles[e.t], s.sema.pcs[e.t]);
  }

  lemma BeginStep<T>(s: State<T>, e: Event<T>)
    requires Inv(s) && Enabled(s, e) && (e.Enqueue? || e.Dequeue?)
    ensures var s' := Next(s, e); e.t < |s'.roles| && e.t < |s'.sema.pcs|
    ensures var s' := Next(s, e); forall none :: Standing(s'.roles[e.t], s'.sema.pcs[e.t], e, 0, false, none)
  {
    hide Semaphore.Inv, Semaphore.Move;
    Semaphore.Begun(s.sema, SemaEvent(e));
  }

  /** What has been found stays found. */
  lemma StandingGrows<T>(role: Role, pc: Semaphore.Pc, call: Event<T>, taken: nat, gaveUp: bool, none: bool)
    requires Standing(role, pc, call, taken, gaveUp, none)
    ensures Standing(role, pc, call, taken, gaveUp, true)
  {}

  lemma {:induction false} CallsKept<T(!new)>(init: State<T>, es: seq<Event<T>>, t: nat)
    requires Initial(init)
    ensures CallStands(init, es, t) && Inv(Play(init, es))
  {
    hide Next, Inv, Standing;
    InitialInv(init);
    PlayInv(init, es);
    if es != [] {
      var front, e := es[..|es| - 1], es[|es| - 1];
      var s, call := Play(init, front), Call(init, front, t);
      CallsKept(init, front, t);
      InvSizes(s);
      if Enabled(s, e) && t < |s.roles| {
        ChangesOne(s, e);
        if Begins(s, e, t) {
          BeginStep(s, e);
        } else if call == None {
          FreeStays(s, e, t);
        } else {
          var taken, gaveUp, none := Taken(init, front, t), GaveUp(init, front, t), FoundNone(init, front, t);
          if e.t == t && e.Collect? {
            CollectStep(s, e, call.value, taken, gaveUp, none);
          } else if e.t == t {
            CallStep(s, e, call.value, taken, gaveUp, none);
          }
          if FoundNone(init, es, t) && Standing(s.roles[t], s.sema.pcs[t], call.value, taken, gaveUp, none) {
            StandingGrows(s.roles[t], s.sema.pcs[t], call.value, taken, gaveUp, none);
          }
        }
      } else if Enabled(s, e) {
        ChangesOne(s, e);
      }
    }
  }

  lemma InvSizes<T>(s: State<T>)
    requires Inv(s)
    ensures |s.roles| == |s.sema.pcs|
  {}

  lemma FreeStays<T>(s: State<T>, e: Event<T>, t: nat)
    requires Inv(s) && Enabled(s, e) && t < |s.roles| && s.roles[t] == Free && !Begins(s, e, t)
    ensures t < |Next(s, e).roles| && Next(s, e).roles[t] == Free
  {
    ChangesOne(s, e);
    assert RoleOk(s.roles[t], s.sema.pcs[t]);
  }

  /** All the items that the calls of `enqueue` and its like have brought, and that attempts have taken. */
  function Brought<T>(init: State<T>, es: seq<Event<T>>): multiset<T>
  {
    if es == [] then multiset{}
    else
      var s, e := Play(init, es[..|es| - 1]), es[|es| - 1];
      Brought(init, es[..|es| - 1])
      + if e.Enqueue? && |s.roles| == |s.sema.pcs| && Enabled(s, e) then multiset(e.xs) else multiset{}
  }

  function Received<T>(init: State<T>, es: seq<Event<T>>): multiset<T>
  {
    if es == [] then multiset{}
    else
      var s, e := Play(init, es[..|es| - 1]), es[|es| - 1];
      Received(init, es[..|es| - 1])
      + if e.Collect? && |s.roles| == |s.sema.pcs| && Enabled(s, e) then multiset(e.xs) else multiset{}
  }

  lemma {:induction false} HistoryIsTrue<T(!new)>(init: State<T>, es: seq<Event<T>>)
    requires Initial(init)
    ensures var s := Play(init, es); s.accepted == Brought(init, es) && s.delivered == Received(init, es)
  {
    hide Enabled, Next;
    if es != [] {
      var s, e := Play(init, es[..|es| - 1]), es[|es| - 1];
      HistoryIsTrue(init, es[..|es| - 1]);
      if |s.roles| == |s.sema.pcs| && Enabled(s, e) { HistoryStep(s, e); }
    }
  }

  lemma HistoryStep<T>(s: State<T>, e: Event<T>)
    requires |s.roles| == |s.sema.pcs| && Enabled(s, e)
    ensures var s' := Next(s, e);
      && s'.accepted == s.accepted + (if e.Enqueue? then multiset(e.xs) else multiset{})
      && s'.delivered == s.delivered + (if e.Collect? then multiset(e.xs) else multiset{})
  {
    hide Semaphore.Next;
  }

  /**
   In every run: what `enqueue` and its like have brought is what is in the inner queue and what consumers
   have received, item by item.  A call of `dequeue` and its like takes no more than its maximum; when it is
   over with less, the semaphore had no token at some moment of the call; and it is over with nothing only
   when its maximum is 0, it does not wait, or the kernel has ended its wait, and it is not `wait_dequeue`.
   */
  lemma CallsGetTheirItems<T(!new)>(init: State<T>, es: seq<Event<T>>, t: nat)
    requires Initial(init)
    ensures Brought(init, es) == Play(init, es).inner + Received(init, es)
    ensures var s, call, taken := Play(init, es), Call(init, es, t), Taken(init, es, t);
      t < |s.roles| && call.Some? && call.value.Dequeue? ==>
        var max, patience := call.value.max, call.value.patience;
        && taken <= max && (s.roles[t].Waiting? ==> taken == 0)
        && (s.roles[t] == Free && taken < max ==> FoundNone(init, es, t))
        && (s.roles[t] == Free && taken == 0 ==>
             && !call.value.again
             && (max == 0 || patience == Semaphore.Try || patience == Semaphore.Poll || GaveUp(init, es, t)))
  {
    TokensHaveItems(init, es);
    HistoryIsTrue(init, es);
    CallsKept(init, es, t);
    InvSizes(Play(init, es));
  }

  // ----- the semaphore's runs within the queue's

  /** The call of the semaphore returns without a token, and `wait_dequeue` makes it again. */
  predicate CallsAgain<T>(s: State<T>, e: Event<T>)
    requires Enabled(s, e)
  {
    (e.Advance? || e.GiveUp?) && s.roles[e.t].Waiting? && s.roles[e.t].again &&
    var sema := Semaphore.Next(s.sema, SemaEvent(e));
    e.t < |sema.pcs| && sema.pcs[e.t] == Semaphore.Idle && sema.results != []
    && sema.results[|sema.results| - 1].got == 0
  }

  /** What the event does with the semaphore. */
  function EventsWithin<T>(s: State<T>, e: Event<T>): seq<Semaphore.Event>
  {
    if !(|s.roles| == |s.sema.pcs| && Enabled(s, e)) || e.Collect? then []
    else if CallsAgain(s, e) then [SemaEvent(e), Semaphore.Wait(e.t, s.roles[e.t].max, s.roles[e.t].patience)]
    else [SemaEvent(e)]
  }

  function SemaEvents<T>(init: State<T>, es: seq<Event<T>>): seq<Semaphore.Event>
  {
    if es == [] then []
    else SemaEvents(init, es[..|es| - 1]) + EventsWithin(Play(init, es[..|es| - 1]), es[|es| - 1])
  }

  /** A step does with the semaphore what these events do. */
  lemma SemaFollows<T>(s: State<T>, e: Event<T>)
    requires Inv(s) && Enabled(s, e) && !e.Collect?
    ensures var sema := Semaphore.Next(s.sema, SemaEvent(e));
      if CallsAgain(s, e) then
        var again := Semaphore.Wait(e.t, s.roles[e.t].max, s.roles[e.t].patience);
        Semaphore.Enabled(sema, again) && Next(s, e).sema == Semaphore.Next(sema, again)
      else Next(s, e).sema == sema
  {
    hide Semaphore.Inv, Semaphore.Next, Semaphore.Move;
    if e.Advance? || e.GiveUp? {
      SemaStep(s.sema, SemaEvent(e));
      CallGoesOn(s.sema, SemaEvent(e));
      assert RoleOk(s.roles[e.t], s.sema.pcs[e.t]);
    }
  }

  lemma StepFollows<T>(s: State<T>, e: Event<T>)
    requires Inv(s) && Enabled(s, e)
    ensures Next(s, e).sema == Semaphore.Play(s.sema, EventsWithin(s, e))
  {
    hide Inv, Semaphore.Next, CallsAgain;
    InvSizes(s);
    if !e.Collect? {
      SemaFollows(s, e);
      var first := SemaEvent(e);
      Runs.PlayOne(Semaphore.Step, s.sema, first);
      if CallsAgain(s, e) {
        Runs.PlayConcat(Semaphore.Step, s.sema, [first], EventsWithin(s, e)[1..]);
        Runs.PlayOne(Semaphore.Step, Semaphore.Step(s.sema, first), EventsWithin(s, e)[1]);
        assert EventsWithin(s, e) == [first] + EventsWithin(s, e)[1..];
      }
    }
  }

  /** The semaphore within the queue goes through a run of its own, so that all that holds of those holds of it. */
  lemma {:induction false} SemaphoreRuns<T(!new)>(init: State<T>, es: seq<Event<T>>)
    requires Initial(init)
    ensures Play(init, es).sema == Semaphore.Play(init.sema, SemaEvents(init, es))
  {
    hide Inv, Enabled, Next, EventsWithin, Semaphore.Step;
    if es != [] {
      var front, e := es[..|es| - 1], es[|es| - 1];
      var s := Play(init, front);
      SemaphoreRuns(init, front);
      InitialInv(init);
      PlayInv(init, front);
      InvSizes(s);
      Runs.PlayConcat(Semaphore.Step, init.sema, SemaEvents(init, front), EventsWithin(s, e));
      if Enabled(s, e) { StepFollows(s, e); } else { NothingWithin(s, e); }
    }
  }

  lemma NothingWithin<T>(s: State<T>, e: Event<T>)
    requires |s.roles| == |s.sema.pcs| && !Enabled(s, e)
    ensures EventsWithin(s, e) == [] && Semaphore.Play(s.sema, EventsWithin(s, e)) == s.sema
  {}

  // ----- spinning ends

  /** Any number of items, out of a bag that has as many. */
  lemma {:induction false} Pick<T>(bag: multiset<T>, n: nat) returns (xs: seq<T>)
    requires n <= |bag|
    ensures |xs| == n && multiset(xs) <= bag
  {
    if n == 0 {
      xs := [];
    } else {
      var x :| x in bag;
      xs := Pick(bag - multiset{x}, n - 1);
      xs := xs + [x];
    }
  }

  /** In every run, an attempt of a spinning consumer can yield all that it needs, and then its call is over. */
  lemma SpinningCanEnd<T(!new)>(init: State<T>, es: seq<Event<T>>, t: nat) returns (xs: seq<T>)
    requires Initial(init)
    requires var s := Play(init, es); t < |s.roles| && s.roles[t].Collecting?
    ensures var s := Play(init, es);
      Enabled(s, Collect(t, xs)) && |xs| == s.roles[t].need && Next(s, Collect(t, xs)).roles[t] == Free
  {
    TokensHaveItems(init, es);
    xs := Pick(Play(init, es).inner, Play(init, es).roles[t].need);
  }
}
