/**
 The collaborative once flag.  One word holds a state, or a pointer to the winner's stack object, the
 runner, together with a count of the references to it that are being taken.  Threads that find a
 winner at work help it, and the runner must not go away before they are done.

 Each step is one atomic operation on the word, on a runner, or on its wait context.  The runner of
 a call by thread `t` lies on the stack of `t`, so its address is determined by `t`; addresses are
 multiples of 128, and the low bits of the word are the reference count.  `completed` and `results`
 are history variables.
 */
module CallOnce {
  import opened Counting
  import opened Wrappers
  import Runs

  /** collaborative_once_max_references. */
  const MaxReferences: nat := 128

  const Uninitialized: nat := 0
  const Done: nat := 1

  function Bits(t: nat): nat
  {
    MaxReferences * (t + 1)
  }

  /** The thread whose runner a word points to; it is -1 when the word is no pointer. */
  function Runner(word: nat): int
  {
    word / MaxReferences - 1
  }

  /** `word | references_mask`. */
  function MaxValue(word: nat): nat
  {
    word / MaxReferences * MaxReferences + MaxReferences - 1
  }

  datatype Pc =
    | Idle
    | Load
    | Win
    // the winner
    | Construct
    | SetReady
    | Run
    | Complete(ok: bool)            // spin_wait_until_eq in set_completion_state
    | Publish(ok: bool)             // the compare-exchange after it
    | Release(ok: bool)
    | Destroy(ok: bool)
    // moonlighting threads; `expected` is the local variable of that name
    | Spin(expected: nat)
    | AddRef(expected: nat)
    | Guard(expected: nat)
    | SubRef(expected: nat)
    | AwaitReady(expected: nat)
    | Assist(expected: nat)
    | Unguard(expected: nat)
    | Leave

  /** A call of thread `t` has returned, normally or by an exception of the functor. */
  datatype Return = Return(t: nat, ok: bool)

  datatype State = State(
    word: nat,
    refCount: seq<int>,
    ready: seq<bool>,               // m_is_ready: the storage of the runner has been constructed
    released: seq<bool>,            // the wait context in that storage has been released
    pcs: seq<Pc>,
    completed: nat,                 // how often the functor has completed without an exception
    results: seq<Return>)

  datatype Event =
    | Call(t: nat)
    | Finish(t: nat, ok: bool)      // the functor returns, or throws
    | Advance(t: nat)

  ghost predicate Initial(s: State)
  {
    && Shape(s) && s.word == Uninitialized && s.completed == 0 && s.results == []
    && (forall t :: 0 <= t < |s.pcs| ==>
          s.pcs[t] == Idle && s.refCount[t] == 0 && !s.ready[t] && !s.released[t])
  }

  ghost predicate Shape(s: State)
  {
    |s.refCount| == |s.ready| == |s.released| == |s.pcs|
  }

  predicate Enabled(s: State, e: Event)
  {
    && e.t < |s.pcs| && |s.refCount| == |s.ready| == |s.released| == |s.pcs|
    && match e
       case Call(t) => s.pcs[t] == Idle
       case Finish(t, _) => s.pcs[t] == Run
       case Advance(t) => s.pcs[t] != Idle && s.pcs[t] != Run && HelpedIn(s, s.pcs[t])
  }

  /** A moonlighting thread's runner is one of the threads'. */
  predicate HelpedIn(s: State, pc: Pc)
  {
    pc.Guard? || pc.AwaitReady? || pc.Assist? || pc.Unguard? ==> 0 <= Runner(pc.expected) < |s.pcs|
  }

  function Goto(s: State, t: nat, pc: Pc): State
    requires t < |s.pcs|
  {
    s.(pcs := s.pcs[t := pc])
  }

  /** The outer loop goes on: try to win, or join the winner. */
  function Again(expected: nat): Pc
  {
    if expected == Uninitialized then Win else if expected == Done then Leave else Spin(expected)
  }

  function Next(s: State, e: Event): State
    requires Enabled(s, e)
  {
    match e
    case Call(t) =>
      if s.word == Done then s.(results := s.results + [Return(t, true)]) else Goto(s, t, Load)
    case Finish(t, ok) =>
      Goto(s, t, Complete(ok)).(completed := if ok then s.completed + 1 else s.completed)
    case Advance(t) =>
      match s.pcs[t]
      case Idle => s
      case Run => s
      case Load => Goto(s, t, if s.word == Uninitialized then Win else Spin(s.word))
      case Win => if s.word == Uninitialized then Goto(s.(word := Bits(t)), t, Construct) else Goto(s, t, Spin(s.word))
      case Construct => Goto(s.(released := s.released[t := false]), t, SetReady)
      case SetReady => Goto(s.(ready := s.ready[t := true]), t, Run)
      case Complete(ok) => if s.word == Bits(t) then Goto(s, t, Publish(ok)) else s
      case Publish(ok) =>
        if s.word == Bits(t) then Goto(s.(word := if ok then Done else Uninitialized), t, Release(ok))
        else Goto(s, t, Complete(ok))
      case Release(ok) => Goto(s.(released := s.released[t := true]), t, Destroy(ok))
      case Destroy(ok) =>
        if s.refCount[t] != 0 then s
        else Goto(s.(ready := s.ready[t := false], results := s.results + [Return(t, ok)]), t, Idle)
      case Spin(expected) =>
        if s.word == MaxValue(expected) then s
        else Goto(s, t, if s.word > Done then AddRef(s.word) else Again(s.word))
      case AddRef(expected) =>
        if s.word == expected then Goto(s.(word := s.word + 1), t, Guard(expected)) else Goto(s, t, Spin(s.word))
      case Guard(expected) =>
        var r := Runner(expected);
        Goto(s.(refCount := s.refCount[r := s.refCount[r] + 1]), t, SubRef(expected))
      case SubRef(expected) => Goto(s.(word := if s.word == 0 then 0 else s.word - 1), t, AwaitReady(expected))
      case AwaitReady(expected) => if s.ready[Runner(expected)] then Goto(s, t, Assist(expected)) else s
      case Assist(expected) => if s.released[Runner(expected)] then Goto(s, t, Unguard(expected)) else s
      case Unguard(expected) =>
        var r := Runner(expected);
        Goto(s.(refCount := s.refCount[r := s.refCount[r] - 1]), t, Spin(expected))
      case Leave =>
        if s.refCount[t] != 0 then s else Goto(s.(results := s.results + [Return(t, true)]), t, Idle)
  }

  // ----- the invariant

  /** The thread has won, and not yet given up the word. */
  predicate Winning(pc: Pc)
  {
    pc.Construct? || pc.SetReady? || pc.Run? || pc.Complete? || pc.Publish?
  }

  /** The thread's runner is in use: from the moment it is published until its destructor is through. */
  predicate Owning(pc: Pc)
  {
    Winning(pc) || pc.Release? || pc.Destroy?
  }

  /** The thread has added one to the word and has not yet taken it back. */
  function Refs(pc: Pc): int
  {
    if pc.Guard? || pc.SubRef? then 1 else 0
  }

  /** The thread has added one to the reference count of runner `r` and has not yet taken it back. */
  predicate Guards(pc: Pc, r: nat)
  {
    (pc.SubRef? || pc.AwaitReady? || pc.Assist? || pc.Unguard?) && Runner(pc.expected) == r
  }

  function GuardsOf(r: nat): Pc -> int
  {
    pc => if Guards(pc, r) then 1 else 0
  }

  function WordRefs(s: State): int { Sum(s.pcs, Refs) }

  /** The word points to the thread's runner. */
  predicate Wins(s: State, t: int)
  {
    0 <= t < |s.pcs| && Winning(s.pcs[t])
  }

  /** The word is the winner's pointer plus the number of threads that are taking a reference. */
  ghost predicate WordInv(s: State)
  {
    && |s.pcs| <= MaxReferences + 1
    && (forall t :: Wins(s, t) ==> s.word == Bits(t) + WordRefs(s))
    && (s.word > Done ==> exists w :: Wins(s, w))
    && (forall t :: 0 <= t < |s.pcs| ==> ExpectedInv(s, s.pcs[t]))
  }

  ghost predicate ExpectedInv(s: State, pc: Pc)
  {
    && (Refs(pc) == 1 ==> s.word > Done && Wins(s, Runner(pc.expected)))
    && (pc.AddRef? ==> pc.expected > Done)
  }

  /** The thread has a share in its winner's runner. */
  predicate Helping(pc: Pc)
  {
    pc.SubRef? || pc.AwaitReady? || pc.Assist? || pc.Unguard?
  }

  /** A runner's reference count is the number of its helpers, and it has an owner as long as it has helpers. */
  ghost predicate HelpInv(s: State)
  {
    && |s.refCount| == |s.ready| == |s.pcs|
    && (forall r :: 0 <= r < |s.pcs| ==> s.refCount[r] == Sum(s.pcs, GuardsOf(r)))
    && (forall t :: 0 <= t < |s.pcs| ==> HelperInv(s, s.pcs[t]))
  }

  ghost predicate HelperInv(s: State, pc: Pc)
    requires |s.ready| == |s.pcs|
  {
    Helping(pc) ==>
      var r := Runner(pc.expected);
      0 <= r < |s.pcs| && Owning(s.pcs[r]) && (pc.Assist? ==> s.ready[r])
  }

  /** The functor completes at most once, and those that know of it are right. */
  ghost predicate OwnInv(s: State)
  {
    && |s.ready| == |s.pcs| && s.completed <= 1
    && (forall t :: 0 <= t < |s.pcs| ==> CallerInv(s, s.pcs[t], s.ready[t]))
    && (s.word == Uninitialized ==> s.completed == 0) && (s.word == Done ==> s.completed == 1)
    && (forall i :: 0 <= i < |s.results| ==> s.results[i].ok ==> s.completed == 1)
  }

  ghost predicate CallerInv(s: State, pc: Pc, ready: bool)
  {
    && (ready <==> pc.Run? || pc.Complete? || pc.Publish? || pc.Release? || pc.Destroy?)
    && (pc.Construct? || pc.SetReady? || pc.Run? ==> s.completed == 0)
    && (pc.Complete? || pc.Publish? ==> (pc.ok <==> s.completed == 1))
    && ((pc.Release? || pc.Destroy?) && pc.ok ==> s.completed == 1)
    && (pc.Leave? ==> s.completed == 1)
  }

  ghost predicate Inv(s: State)
  {
    Shape(s) && WordInv(s) && HelpInv(s) && OwnInv(s)
  }

  lemma InitialInv(s: State)
    requires Initial(s) && |s.pcs| <= MaxReferences + 1
    ensures Inv(s)
  {
    SumConstant(s.pcs, Refs, 0);
    forall r | 0 <= r < |s.pcs| ensures s.refCount[r] == Sum(s.pcs, GuardsOf(r)) {
      SumConstant(s.pcs, GuardsOf(r), 0);
    }
  }

  // ----- the word

  lemma RunnerOf(t: nat, refs: nat)
    requires refs < MaxReferences
    ensures Runner(Bits(t) + refs) == t && Bits(t) > Done
  {}

  /**
   How many references are being taken: the winner holds none, nor does a thread that is to add one.  So
   they fit into the low bits with at most 128 callers, and with one more as long as another is to be added.
   */
  lemma RefsFit(s: State, t: nat) returns (w: nat)
    requires WordInv(s) && t < |s.pcs|
    ensures WordRefs(s) >= 0 && forall h :: 0 <= h < |s.pcs| ==> Refs(s.pcs[h]) <= WordRefs(s)
    ensures s.word > Done ==> Wins(s, w) && s.word == Bits(w) + WordRefs(s) && WordRefs(s) < |s.pcs|
    ensures s.word > Done && s.pcs[t].AddRef? ==> WordRefs(s) + 1 < |s.pcs| && Runner(s.word) == w
    ensures s.word <= Done ==> WordRefs(s) == 0
  {
    w := 0;
    SumBounds(s.pcs, Refs);
    if s.word > Done {
      w :| Wins(s, w);
      SumUpdate(s.pcs, w, Guard(0), Refs);
      var pcs := s.pcs[w := Guard(0)];
      SumUpdate(pcs, t, Guard(0), Refs);
      SumAtMost(pcs, Refs, 1);
      SumAtMost(pcs[t := Guard(0)], Refs, 1);
      if s.pcs[t].AddRef? { RunnerOf(w, WordRefs(s)); }
    } else {
      SumConstant(s.pcs, Refs, 0);
    }
  }

  /** What a step does to the word. */
  ghost predicate WordStep(s: State, s': State, t: nat)
    requires t < |s.pcs| && t < |s'.pcs|
  {
    var pc, pc' := s.pcs[t], s'.pcs[t];
    && s'.pcs == s.pcs[t := pc'] && (pc'.AddRef? ==> pc'.expected > Done)
    && (if Refs(pc') > Refs(pc) then
          s.word > Done && s'.word == s.word + 1 && pc.AddRef? && pc'.expected == s.word && !Winning(pc')
        else if Refs(pc') < Refs(pc) then
          s'.word == (if s.word == 0 then 0 else s.word - 1) && !Winning(pc) && !Winning(pc')
        else if Winning(pc') && !Winning(pc) then s.word == Uninitialized && s'.word == Bits(t)
        else if Winning(pc) && !Winning(pc') then s.word == Bits(t) && s'.word <= Done
        else s'.word == s.word && (Refs(pc) == 1 ==> pc'.expected == pc.expected))
  }

  lemma WordStepKeeps(s: State, s': State, t: nat)
    requires WordInv(s) && t < |s.pcs| && t < |s'.pcs| && WordStep(s, s', t)
    ensures WordInv(s')
  {
    hide Runner, WordRefs;
    var w := RefsFit(s, t);
    RefsAfter(s, s', t);
    assert ExpectedInv(s, s.pcs[t]);
    WinnersAfter(s, s', t, w);
    if s'.word > Done { assert Wins(s', if Winning(s'.pcs[t]) then t else w); }
    forall h | 0 <= h < |s'.pcs| ensures ExpectedInv(s', s'.pcs[h]) {
      assert ExpectedInv(s, s.pcs[h]) && Refs(s.pcs[h]) <= WordRefs(s);
    }
  }

  lemma RefsAfter(s: State, s': State, t: nat)
    requires t < |s.pcs| && t < |s'.pcs| && s'.pcs == s.pcs[t := s'.pcs[t]]
    ensures WordRefs(s') == WordRefs(s) - Refs(s.pcs[t]) + Refs(s'.pcs[t])
  {
    SumUpdate(s.pcs, t, s'.pcs[t], Refs);
  }

  /** Nobody but `t` starts or stops winning, and it starts only when nobody wins. */
  lemma WinnersAfter(s: State, s': State, t: nat, w: nat)
    requires WordInv(s) && t < |s.pcs| && t < |s'.pcs| && WordStep(s, s', t)
    requires WordRefs(s) >= 0 && (s.word > Done ==> Wins(s, w))
    ensures forall h :: Wins(s', h) ==> if h == t then Winning(s'.pcs[t]) else Wins(s, h) && s.word > Done && h == w
  {
    forall h | Wins(s', h) && h != t ensures Wins(s, h) && s.word > Done && h == w {
      assert Wins(s, h);
    }
  }

  /** Every step is one of those. */
  lemma IsWordStep(s: State, e: Event)
    requires Enabled(s, e) && ExpectedInv(s, s.pcs[e.t])
    ensures Shape(Next(s, e)) && |Next(s, e).pcs| == |s.pcs| && WordStep(s, Next(s, e), e.t)
  {
    hide Runner, MaxValue, Bits;
    if Joining(s.pcs[e.t]) {
      IsJoiningWordStep(s, e);
    } else if Winning(s.pcs[e.t]) {
      IsWinnerWordStep(s, e);
    } else {
      IsOtherWordStep(s, e);
    }
  }

  /** A moonlighting thread, from its look at the word to the end of its help. */
  predicate Joining(pc: Pc)
  {
    pc.Spin? || pc.AddRef? || pc.Guard? || Helping(pc)
  }

  lemma IsJoiningWordStep(s: State, e: Event)
    requires Enabled(s, e) && ExpectedInv(s, s.pcs[e.t]) && Joining(s.pcs[e.t])
    ensures Shape(Next(s, e)) && |Next(s, e).pcs| == |s.pcs| && WordStep(s, Next(s, e), e.t)
  {
    hide Runner, MaxValue, Bits;
  }

  lemma IsWinnerWordStep(s: State, e: Event)
    requires Enabled(s, e) && ExpectedInv(s, s.pcs[e.t]) && Winning(s.pcs[e.t])
    ensures Shape(Next(s, e)) && |Next(s, e).pcs| == |s.pcs| && WordStep(s, Next(s, e), e.t)
  {
    hide Runner, MaxValue, Bits;
  }

  lemma IsOtherWordStep(s: State, e: Event)
    requires Enabled(s, e) && ExpectedInv(s, s.pcs[e.t]) && !Joining(s.pcs[e.t]) && !Winning(s.pcs[e.t])
    ensures Shape(Next(s, e)) && |Next(s, e).pcs| == |s.pcs| && WordStep(s, Next(s, e), e.t)
  {
    hide Runner, MaxValue, Bits;
  }

  // ----- the helpers

  /** What a step does to the runners. */
  ghost predicate HelpStep(s: State, s': State, t: nat)
    requires Shape(s) && t < |s.pcs| && |s'.pcs| == |s.pcs|
  {
    var pc, pc' := s.pcs[t], s'.pcs[t];
    && s'.pcs == s.pcs[t := pc'] && Shape(s')
    && (forall h :: 0 <= h < |s.pcs| && h != t ==> s'.ready[h] == s.ready[h])
    && (Owning(pc) && Owning(pc') && s.ready[t] ==> s'.ready[t])
    && (Owning(pc) && !Owning(pc') ==> s.refCount[t] == 0)
    && (Helping(pc') || Helping(pc) ==> s'.ready == s.ready)
    && (if Helping(pc') && !Helping(pc) then
          pc.Guard? && pc'.SubRef? && pc'.expected == pc.expected && 0 <= Runner(pc.expected) < |s.pcs|
          && s'.refCount == s.refCount[Runner(pc.expected) := s.refCount[Runner(pc.expected)] + 1]
        else if Helping(pc) && !Helping(pc') then
          0 <= Runner(pc.expected) < |s.pcs|
          && s'.refCount == s.refCount[Runner(pc.expected) := s.refCount[Runner(pc.expected)] - 1]
        else
          s'.refCount == s.refCount && (Helping(pc) ==> pc'.expected == pc.expected)
          && (pc'.Assist? && !pc.Assist? ==> 0 <= Runner(pc'.expected) < |s.pcs| && s.ready[Runner(pc'.expected)]))
  }

  /** A runner with a reference count of zero has no helpers. */
  lemma NobodyHelps(s: State, r: nat)
    requires HelpInv(s) && r < |s.pcs| && s.refCount[r] == 0
    ensures forall h :: 0 <= h < |s.pcs| ==> !Guards(s.pcs[h], r)
  {
    SumBounds(s.pcs, GuardsOf(r));
    forall h | 0 <= h < |s.pcs| ensures !Guards(s.pcs[h], r) {
      assert GuardsOf(r)(s.pcs[h]) <= 0;
    }
  }

  lemma HelpStepKeeps(s: State, s': State, t: nat)
    requires Shape(s) && HelpInv(s) && t < |s.pcs| && |s'.pcs| == |s.pcs| && HelpStep(s, s', t)
    requires var pc := s.pcs[t]; pc.Guard? ==> Wins(s, Runner(pc.expected))
    ensures HelpInv(s')
  {
    forall r | 0 <= r < |s'.pcs| ensures s'.refCount[r] == Sum(s'.pcs, GuardsOf(r)) {
      SumUpdate(s.pcs, t, s'.pcs[t], GuardsOf(r));
    }
    if s.refCount[t] == 0 { NobodyHelps(s, t); }
    assert HelperInv(s, s.pcs[t]);
    forall h | 0 <= h < |s'.pcs| ensures HelperInv(s', s'.pcs[h]) {
      assert HelperInv(s, s.pcs[h]);
    }
  }

  lemma IsHelpStep(s: State, e: Event)
    requires Enabled(s, e) && HelperInv(s, s.pcs[e.t]) && |Next(s, e).pcs| == |s.pcs|
    ensures HelpStep(s, Next(s, e), e.t)
  {
    hide Runner, MaxValue, Next, HelpStep;
    if Joining(s.pcs[e.t]) { IsJoiningHelpStep(s, e); } else { IsOtherHelpStep(s, e); }
  }

  lemma IsJoiningHelpStep(s: State, e: Event)
    requires Enabled(s, e) && HelperInv(s, s.pcs[e.t]) && |Next(s, e).pcs| == |s.pcs| && Joining(s.pcs[e.t])
    ensures HelpStep(s, Next(s, e), e.t)
  {
    hide Runner, MaxValue;
  }

  lemma IsOtherHelpStep(s: State, e: Event)
    requires Enabled(s, e) && HelperInv(s, s.pcs[e.t]) && |Next(s, e).pcs| == |s.pcs| && !Joining(s.pcs[e.t])
    ensures HelpStep(s, Next(s, e), e.t)
  {
    hide Runner, MaxValue;
  }

  // ----- what the callers know

  /** What a step does to the functor's completion, and to those that know of it. */
  ghost predicate OwnStep(s: State, s': State, t: nat)
    requires Shape(s) && t < |s.pcs| && |s'.pcs| == |s.pcs| && Shape(s')
  {
    var pc, pc' := s.pcs[t], s'.pcs[t];
    && s'.pcs == s.pcs[t := pc'] && CallerInv(s', pc', s'.ready[t])
    && (forall h :: 0 <= h < |s.pcs| && h != t ==> s'.ready[h] == s.ready[h])
    && (s'.completed == s.completed || (pc.Run? && s.completed == 0 && s'.completed == 1 && s'.word == s.word))
    && (s'.word != s.word ==> (s'.word == Uninitialized ==> s.completed == 0) && (s'.word == Done ==> s.completed == 1))
    && (s'.results == s.results
        || (|s'.results| == |s.results| + 1 && s'.results[..|s.results|] == s.results
            && (s'.results[|s.results|].ok ==> s.completed == 1)))
  }

  /** Only one thread can be the winner. */
  lemma OneWinner(s: State, t: nat, h: nat)
    requires WordInv(s) && t < |s.pcs| && h < |s.pcs| && Winning(s.pcs[t]) && Winning(s.pcs[h])
    ensures t == h && s.word > Done
  {
    var _ := RefsFit(s, t);
    assert Wins(s, t) && Wins(s, h);
  }

  lemma OwnStepKeeps(s: State, s': State, t: nat)
    requires Shape(s) && WordInv(s) && OwnInv(s) && t < |s.pcs| && |s'.pcs| == |s.pcs| && Shape(s') && OwnStep(s, s', t)
    ensures OwnInv(s')
  {
    if s.pcs[t].Run? { OneWinner(s, t, t); }
    forall h | 0 <= h < |s'.pcs| ensures CallerInv(s', s'.pcs[h], s'.ready[h]) {
      assert CallerInv(s, s.pcs[h], s.ready[h]);
      if h != t && s.pcs[t].Run? && Winning(s.pcs[h]) { OneWinner(s, t, h); }
    }
    forall i | 0 <= i < |s'.results| && s'.results[i].ok ensures s'.completed == 1 {
      if i < |s.results| { assert s'.results[..|s.results|][i] == s.results[i]; }
    }
  }

  /** The thread's part of the invariant, and what it says of the flag. */
  ghost predicate OwnFacts(s: State, t: nat)
    requires t < |s.pcs| == |s.ready|
  {
    && CallerInv(s, s.pcs[t], s.ready[t]) && ExpectedInv(s, s.pcs[t]) && s.completed <= 1
    && (s.word == Uninitialized ==> s.completed == 0) && (s.word == Done ==> s.completed == 1)
    && (s.pcs[t].SubRef? ==> s.word > Done + 1)
  }

  lemma IsOwnStep(s: State, e: Event)
    requires Enabled(s, e) && |Next(s, e).pcs| == |s.pcs| && Shape(Next(s, e)) && OwnFacts(s, e.t)
    ensures OwnStep(s, Next(s, e), e.t)
  {
    hide Next, OwnStep, OwnFacts;
    if Joining(s.pcs[e.t]) { IsJoiningOwnStep(s, e); } else { IsOtherOwnStep(s, e); }
  }

  lemma IsJoiningOwnStep(s: State, e: Event)
    requires Enabled(s, e) && |Next(s, e).pcs| == |s.pcs| && Shape(Next(s, e)) && OwnFacts(s, e.t)
    requires Joining(s.pcs[e.t])
    ensures OwnStep(s, Next(s, e), e.t)
  {
    hide Runner, MaxValue;
  }

  lemma IsOtherOwnStep(s: State, e: Event)
    requires Enabled(s, e) && |Next(s, e).pcs| == |s.pcs| && Shape(Next(s, e)) && OwnFacts(s, e.t)
    requires !Joining(s.pcs[e.t])
    ensures OwnStep(s, Next(s, e), e.t)
  {
    hide Runner, MaxValue;
  }

  /** What the invariant says of one thread. */
  lemma LocalFacts(s: State, t: nat)
    requires Inv(s) && t < |s.pcs|
    ensures ExpectedInv(s, s.pcs[t]) && HelperInv(s, s.pcs[t]) && CallerInv(s, s.pcs[t], s.ready[t])
    ensures s.completed <= 1
    ensures (s.word == Uninitialized ==> s.completed == 0) && (s.word == Done ==> s.completed == 1)
    ensures s.pcs[t].SubRef? ==> s.word > Done + 1
  {
    var _ := RefsFit(s, t);
  }

  /** Every step of every thread keeps the invariant. */
  lemma StepInv(s: State, e: Event)
    requires Inv(s) && Enabled(s, e)
    ensures Inv(Next(s, e))
  {
    hide Next, WordStep, HelpStep, OwnStep, HelpInv, OwnInv, HelperInv, CallerInv;
    var t, s' := e.t, Next(s, e);
    LocalFacts(s, t);
    IsWordStep(s, e);
    IsHelpStep(s, e);
    IsOwnStep(s, e);
    WordStepKeeps(s, s', t);
    HelpStepKeeps(s, s', t);
    OwnStepKeeps(s, s', t);
  }

  // ----- runs

  /** An event that is not enabled when its turn comes changes nothing. */
  function Step(s: State, e: Event): State
  {
    if Enabled(s, e) then Next(s, e) else s
  }

  function Play(s: State, es: seq<Event>): State
  {
    Runs.Play(Step, s, es)
  }

  lemma PlayInv(s: State, es: seq<Event>)
    requires Inv(s)
    ensures Inv(Play(s, es))
  {
    forall s, e | Inv(s) ensures Inv(Step(s, e)) {
      if Enabled(s, e) { StepInv(s, e); }
    }
    Runs.PlayKeeps(Step, s => Inv(s), s, es);
  }

  /** If the thread's next operation accesses a winner's runner, that is in use; and its storage is there when needed. */
  ghost predicate TouchesSafely(s: State, pc: Pc)
    requires |s.ready| == |s.pcs|
  {
    pc.Guard? || Helping(pc) ==>
      var r := Runner(pc.expected);
      0 <= r < |s.pcs| && Owning(s.pcs[r]) && (pc.Assist? ==> s.ready[r])
  }

  ghost predicate AllTouchSafely(s: State)
  {
    |s.ready| == |s.pcs| && forall h :: 0 <= h < |s.pcs| ==> TouchesSafely(s, s.pcs[h])
  }

  /**
   With at most 129 callers, in every interleaving: the functor completes at most once; the flag says
   done only when it has, and so does every call that returns normally; and nobody is about to touch
   a runner unless the call that it belongs to is still using it, or its storage unless it is there.
   */
  lemma CallOnceIsSafe(init: State, es: seq<Event>)
    requires Initial(init) && |init.pcs| <= MaxReferences + 1
    ensures var s := Play(init, es);
      && s.completed <= 1
      && (s.word == Done ==> s.completed == 1)
      && (forall i :: 0 <= i < |s.results| && s.results[i].ok ==> s.completed == 1)
      && AllTouchSafely(s)
  {
    InitialInv(init);
    PlayInv(init, es);
    var s := Play(init, es);
    forall h | 0 <= h < |s.pcs| ensures TouchesSafely(s, s.pcs[h]) {
      assert ExpectedInv(s, s.pcs[h]) && HelperInv(s, s.pcs[h]);
    }
  }

  ghost predicate Finished(s: State)
  {
    Inv(s) && s.word == Done
  }

  lemma DoneStays(s: State, e: Event)
    requires Finished(s) && Enabled(s, e)
    ensures Finished(Next(s, e))
  {
    StepInv(s, e);
    assert ExpectedInv(s, s.pcs[e.t]);
    assert Winning(s.pcs[e.t]) ==> Wins(s, e.t);
    var _ := RefsFit(s, e.t);
  }

  /** Once done, the flag stays done, and the functor does not complete again. */
  lemma DoneIsPermanent(s: State, es: seq<Event>)
    requires Finished(s)
    ensures Finished(Play(s, es)) && Play(s, es).completed == 1
  {
    forall s, e | Finished(s) ensures Finished(Step(s, e)) {
      if Enabled(s, e) { DoneStays(s, e); }
    }
    Runs.PlayKeeps(Step, s => Finished(s), s, es);
  }

  // ----- a caller alone

  /** A call up to the functor, and the rest of it, without interference. */
  function Begin(t: nat): seq<Event>
  {
    [Call(t), Advance(t), Advance(t), Advance(t), Advance(t)]
  }

  function End(t: nat, ok: bool): seq<Event>
  {
    [Finish(t, ok), Advance(t), Advance(t), Advance(t), Advance(t)]
  }

  lemma BeginAlone(s: State, t: nat)
    requires Shape(s) && t < |s.pcs| && s.pcs[t] == Idle && s.word == Uninitialized
    ensures Play(s, Begin(t)) ==
      s.(word := Bits(t), pcs := s.pcs[t := Run], released := s.released[t := false], ready := s.ready[t := true])
  {
    var s1 := Step(s, Call(t));
    assert s1 == s.(pcs := s.pcs[t := Load]);
    var s2 := Step(s1, Advance(t));
    assert s2 == s.(pcs := s.pcs[t := Win]);
    var s3 := Step(s2, Advance(t));
    assert s3 == s.(word := Bits(t), pcs := s.pcs[t := Construct]);
    var s4 := Step(s3, Advance(t));
    assert s4 == s3.(pcs := s.pcs[t := SetReady], released := s.released[t := false]);
    var s5 := Step(s4, Advance(t));
    assert s5 == s4.(pcs := s.pcs[t := Run], ready := s.ready[t := true]);
    Runs.PlayFive(Step, s, Call(t), Advance(t), Advance(t), Advance(t), Advance(t));
  }

  lemma EndAlone(s: State, t: nat, ok: bool)
    requires Shape(s) && t < |s.pcs| && s.pcs[t] == Run && s.word == Bits(t) && s.refCount[t] == 0
    ensures Play(s, End(t, ok)) ==
      s.(word := if ok then Done else Uninitialized, pcs := s.pcs[t := Idle], ready := s.ready[t := false],
         released := s.released[t := true], completed := s.completed + (if ok then 1 else 0),
         results := s.results + [Return(t, ok)])
  {
    hide Step;
    EndSteps(s, t, ok);
    Runs.PlayFive(Step, s, Finish(t, ok), Advance(t), Advance(t), Advance(t), Advance(t));
  }

  lemma EndSteps(s: State, t: nat, ok: bool)
    requires Shape(s) && t < |s.pcs| && s.pcs[t] == Run && s.word == Bits(t) && s.refCount[t] == 0
    ensures Step(Step(Step(Step(Step(s, Finish(t, ok)), Advance(t)), Advance(t)), Advance(t)), Advance(t)) ==
      s.(word := if ok then Done else Uninitialized, pcs := s.pcs[t := Idle], ready := s.ready[t := false],
         released := s.released[t := true], completed := s.completed + (if ok then 1 else 0),
         results := s.results + [Return(t, ok)])
  {
    hide Runner, MaxValue;
    var s1 := Step(s, Finish(t, ok));
    assert s1 == s.(pcs := s.pcs[t := Complete(ok)], completed := s.completed + (if ok then 1 else 0));
    var s2 := Step(s1, Advance(t));
    assert s2 == s1.(pcs := s.pcs[t := Publish(ok)]);
    var s3 := Step(s2, Advance(t));
    assert s3 == s1.(word := if ok then Done else Uninitialized, pcs := s.pcs[t := Release(ok)]);
    var s4 := Step(s3, Advance(t));
    assert s4 == s3.(pcs := s.pcs[t := Destroy(ok)], released := s.released[t := true]);
    var s5 := Step(s4, Advance(t));
    assert s5 == s4.(pcs := s.pcs[t := Idle], ready := s.ready[t := false], results := s.results + [Return(t, ok)]);
  }

  /** Nobody is inside a call. */
  ghost predicate AllIdle(s: State)
  {
    forall t :: 0 <= t < |s.pcs| ==> s.pcs[t] == Idle
  }

  /**
   Whatever has happened before, exceptions in particular: when nobody is inside, the flag is either
   done, and the functor has completed, or as good as new.
   */
  lemma RestIsNewOrDone(init: State, es: seq<Event>)
    requires Initial(init) && |init.pcs| <= MaxReferences + 1
    requires AllIdle(Play(init, es))
    ensures var s := Play(init, es);
      && Shape(s) && (s.completed == 1 <==> s.word == Done) && (s.completed == 0 <==> s.word == Uninitialized)
      && forall t :: 0 <= t < |s.pcs| ==> s.refCount[t] == 0 && !s.ready[t]
  {
    InitialInv(init);
    PlayInv(init, es);
    var s := Play(init, es);
    assert forall w :: !Wins(s, w);
    forall t | 0 <= t < |s.pcs| ensures s.refCount[t] == 0 && !s.ready[t] {
      SumConstant(s.pcs, GuardsOf(t), 0);
      assert CallerInv(s, s.pcs[t], s.ready[t]);
    }
  }

  /**
   So an exception reopens the flag: after any run in which the functor has not completed, and with
   nobody inside, the next call by any thread runs the functor, and returns or throws as that does.
   */
  lemma ExceptionReopens(init: State, es: seq<Event>, t: nat, ok: bool)
    requires Initial(init) && |init.pcs| <= MaxReferences + 1
    requires var s := Play(init, es); AllIdle(s) && s.completed == 0 && t < |s.pcs|
    ensures var s := Play(init, es);
      && t < |Play(s, Begin(t)).pcs| && Play(s, Begin(t)).pcs[t] == Run
      && var s' := Play(s, Begin(t) + End(t, ok));
         && AllIdle(s') && s'.results == s.results + [Return(t, ok)]
         && s'.completed == (if ok then 1 else 0) && s'.word == (if ok then Done else Uninitialized)
  {
    hide Step;
    var s := Play(init, es);
    RestIsNewOrDone(init, es);
    BeginAlone(s, t);
    EndAlone(Play(s, Begin(t)), t, ok);
    Runs.PlayConcat(Step, s, Begin(t), End(t, ok));
  }

  // ----- whom a thread waits for

  /** The thread's next operation is a look that it has to repeat. */
  predicate Awaits(s: State, t: nat)
    requires Enabled(s, Advance(t))
  {
    match s.pcs[t]
    case Complete(_) => s.word != Bits(t)               // references to its runner are being taken
    case Destroy(_) => s.refCount[t] != 0               // it is being helped
    case Leave => s.refCount[t] != 0
    case Spin(expected) => s.word == MaxValue(expected) // there is no room for one more reference
    case AwaitReady(expected) => !s.ready[Runner(expected)]
    case Assist(expected) => !s.released[Runner(expected)]
    case _ => false
  }

  /** Then, and only then, a thread's operation leaves it where it is. */
  lemma StepsMoveOn(s: State, t: nat)
    requires Enabled(s, Advance(t))
    ensures t < |Next(s, Advance(t)).pcs|
    ensures Next(s, Advance(t)).pcs[t] == s.pcs[t] <==> Awaits(s, t)
  {
    hide Runner, MaxValue, Bits;
  }

  /** The wait context of a winner is released once it has given up the word, and not before. */
  ghost predicate ReleaseInv(s: State)
  {
    |s.released| == |s.pcs| && forall t :: 0 <= t < |s.pcs| ==> ReleasedRight(s.pcs[t], s.released[t])
  }

  predicate ReleasedRight(pc: Pc, released: bool)
  {
    && (pc.SetReady? || pc.Run? || pc.Complete? || pc.Publish? ==> !released)
    && (pc.Destroy? ==> released)
  }

  lemma ReleaseStep(s: State, e: Event)
    requires ReleaseInv(s) && Enabled(s, e)
    ensures ReleaseInv(Next(s, e))
  {
    hide Runner, MaxValue, Bits;
    var s' := Next(s, e);
    assert s'.pcs == s.pcs || s'.pcs == s.pcs[e.t := s'.pcs[e.t]];
    assert s'.released == s.released || s'.released == s.released[e.t := s'.released[e.t]];
  }

  lemma {:induction false} AlwaysReleased(init: State, es: seq<Event>)
    requires Initial(init)
    ensures ReleaseInv(Play(init, es))
  {
    hide Next, ReleaseInv;
    if es == [] {
      AtFirst(init);
    } else {
      AlwaysReleased(init, es[..|es| - 1]);
      if Enabled(Play(init, es[..|es| - 1]), es[|es| - 1]) { ReleaseStep(Play(init, es[..|es| - 1]), es[|es| - 1]); }
    }
  }

  lemma AtFirst(init: State)
    requires Initial(init)
    ensures ReleaseInv(init)
  {}

  /** The thread is idle, runs the functor, or waits for another. */
  predicate Still(s: State, t: nat)
  {
    t < |s.pcs| && (s.pcs[t] == Idle || s.pcs[t] == Run || (Enabled(s, Advance(t)) && Awaits(s, t)))
  }

  /** While nobody runs the functor, a thread that wins can move, or one that takes a reference to its runner can. */
  lemma NobodyWins(s: State)
    requires Inv(s) && (forall t :: 0 <= t < |s.pcs| ==> Still(s, t) && s.pcs[t] != Run)
    ensures s.word <= Done && forall t :: 0 <= t < |s.pcs| ==> !Winning(s.pcs[t])
  {
    hide Runner, MaxValue;
    SumConstant(s.pcs, Refs, 0);
    forall t | 0 <= t < |s.pcs| ensures !Winning(s.pcs[t]) {
      assert Still(s, t);
      assert Winning(s.pcs[t]) ==> Wins(s, t);
    }
    assert forall w :: !Wins(s, w);
  }

  /** Owners of runners that cannot move are past the functor. */
  lemma OwnersArePast(s: State)
    requires Inv(s) && ReleaseInv(s) && (forall t :: 0 <= t < |s.pcs| ==> Still(s, t) && !Winning(s.pcs[t]))
    ensures forall r :: 0 <= r < |s.pcs| && Owning(s.pcs[r]) ==> s.ready[r] && s.released[r]
  {
    hide Runner, MaxValue, WordInv;
    forall r | 0 <= r < |s.pcs| ensures Owning(s.pcs[r]) ==> s.ready[r] && s.released[r] {
      assert Still(s, r) && CallerInv(s, s.pcs[r], s.ready[r]) && ReleasedRight(s.pcs[r], s.released[r]);
    }
  }

  lemma NobodyHelping(s: State, t: nat)
    requires Inv(s) && ReleaseInv(s) && (forall t :: 0 <= t < |s.pcs| ==> Still(s, t) && !Winning(s.pcs[t]))
    requires t < |s.pcs|
    ensures !Helping(s.pcs[t])
  {
    hide Runner, MaxValue, WordInv;
    OwnersArePast(s);
    assert Still(s, t) && HelperInv(s, s.pcs[t]);
  }

  /**
   With at most 129 callers, in every run: when every thread inside waits for another, then there is none
   inside.  So as long as the functor returns, somebody can go on until all have left.
   */
  lemma NobodyIsStuck(init: State, es: seq<Event>)
    requires Initial(init) && |init.pcs| <= MaxReferences + 1
    requires var s := Play(init, es); forall t :: 0 <= t < |s.pcs| ==> Still(s, t) && s.pcs[t] != Run
    ensures AllIdle(Play(init, es))
  {
    hide Runner, WordInv;
    InitialInv(init);
    PlayInv(init, es);
    AlwaysReleased(init, es);
    var s := Play(init, es);
    NobodyWins(s);
    forall t | 0 <= t < |s.pcs| ensures s.pcs[t] == Idle {
      forall h | 0 <= h < |s.pcs| ensures !Helping(s.pcs[h]) { NobodyHelping(s, h); }
      SumConstant(s.pcs, GuardsOf(t), 0);
      assert Still(s, t);
    }
  }

  // ----- a thread alone

  /** Both marks of the runner that the helper has in mind are up: its winner is past the functor. */
  predicate IsPast(s: State, expected: nat)
  {
    0 <= Runner(expected) < |s.pcs| && |s.ready| == |s.released| == |s.pcs|
    && s.ready[Runner(expected)] && s.released[Runner(expected)]
  }

  /** How many operations thread `t` has before it at most, if no other thread moves. */
  function Remaining(s: State, t: nat): nat
    requires t < |s.pcs|
  {
    match s.pcs[t]
    case Idle => 0
    case Run => 0
    case Load => 13
    case Win => if s.word == Uninitialized then 3 else 12
    case Construct => 2
    case SetReady => 1
    case Complete(_) => 4
    case Publish(_) => if s.word == Bits(t) then 3 else 5
    case Release(_) => 2
    case Destroy(_) => 1
    case Spin(_) => 11
    case AddRef(expected) => if s.word == expected then 10 else 12
    case Guard(expected) => if IsPast(s, expected) then 16 else 9
    case SubRef(expected) => if IsPast(s, expected) then 15 else 8
    case AwaitReady(expected) => if IsPast(s, expected) then 14 else 7
    case Assist(expected) => if IsPast(s, expected) then 13 else 6
    case Unguard(_) => 12
    case Leave => 1
  }

  /** A reference is added only to the runner of a winner, which is not past the functor. */
  lemma JoinsNotPast(s: State, t: nat)
    requires Inv(s) && ReleaseInv(s) && t < |s.pcs| && s.pcs[t].AddRef?
    ensures s.word == s.pcs[t].expected ==> !IsPast(s, s.word)
  {
    assert ExpectedInv(s, s.pcs[t]);
    var w := RefsFit(s, t);
    if s.word > Done {
      assert Wins(s, w) && CallerInv(s, s.pcs[w], s.ready[w]) && ReleasedRight(s.pcs[w], s.released[w]);
    }
  }

  lemma RemainingFalls(s: State, t: nat)
    requires Inv(s) && ReleaseInv(s) && t < |s.pcs| && !Still(s, t)
    ensures Enabled(s, Advance(t))
    ensures var s' := Next(s, Advance(t)); t < |s'.pcs| && Remaining(s', t) < Remaining(s, t) <= 16
  {
    hide Runner, MaxValue, Bits, Inv, ReleaseInv, Next, Remaining;
    InvParts(s, t);
    ChangesOne(s, Advance(t));
    AtMost16(s, t);
    if s.pcs[t].AddRef? { JoinsNotPast(s, t); }
    if Joining(s.pcs[t]) { JoiningFalls(s, t); } else { OtherFalls(s, t); }
  }

  lemma JoiningFalls(s: State, t: nat)
    requires Enabled(s, Advance(t)) && Joining(s.pcs[t]) && !Awaits(s, t) && t < |Next(s, Advance(t)).pcs|
    requires HelperInv(s, s.pcs[t]) && ExpectedInv(s, s.pcs[t])
    requires s.pcs[t].AddRef? && s.word == s.pcs[t].expected ==> !IsPast(s, s.word)
    ensures Remaining(Next(s, Advance(t)), t) < Remaining(s, t)
  {
    hide Runner, MaxValue, Bits;
  }

  lemma OtherFalls(s: State, t: nat)
    requires Enabled(s, Advance(t)) && !Joining(s.pcs[t]) && !Awaits(s, t) && t < |Next(s, Advance(t)).pcs|
    ensures Remaining(Next(s, Advance(t)), t) < Remaining(s, t)
  {
    hide Runner, MaxValue, Bits;
  }

  lemma InvParts(s: State, t: nat)
    requires Inv(s) && t < |s.pcs|
    ensures |s.refCount| == |s.ready| == |s.released| == |s.pcs|
    ensures HelperInv(s, s.pcs[t]) && ExpectedInv(s, s.pcs[t]) && HelpedIn(s, s.pcs[t])
  {
    hide Runner;
    assert ExpectedInv(s, s.pcs[t]);
  }

  /**
   With at most 129 callers, whatever the others were doing when they stopped: a thread that runs on alone
   ends its call, gets to run the functor, or comes to wait for another thread, after at most 16 operations.
   */
  lemma CallsEndAlone(init: State, es: seq<Event>, t: nat)
    requires Initial(init) && |init.pcs| <= MaxReferences + 1 && t < |init.pcs|
    ensures Runs.Ends(Step, Play(init, es), Advance(t), 16, (s: State) => Still(s, t))
  {
    hide Inv, ReleaseInv, Still, Next, Remaining;
    InitialInv(init);
    PlayInv(init, es);
    AlwaysReleased(init, es);
    PlaySameThreads(init, es);
    var s := Play(init, es);
    var inv := (s: State) => Inv(s) && ReleaseInv(s) && t < |s.pcs|;
    var left := (s: State) => if t < |s.pcs| then Remaining(s, t) else 0;
    var done := (s: State) => Still(s, t);
    forall s | inv(s) && !done(s) ensures inv(Step(s, Advance(t))) && left(Step(s, Advance(t))) < left(s) {
      RemainingFalls(s, t);
      StepInv(s, Advance(t));
      ReleaseStep(s, Advance(t));
    }
    AtMost16(s, t);
    Runs.FallingEnds(Step, s, Advance(t), inv, left, done);
  }

  lemma AtMost16(s: State, t: nat)
    requires t < |s.pcs|
    ensures Remaining(s, t) <= 16
  {}

  // ----- what a call returns

  /** The functor's end in the latest call of thread `t`: with or without an exception, or not at all. */
  function Outcome(init: State, es: seq<Event>, t: nat): Option<bool>
  {
    if es == [] then None
    else
      var s, e := Play(init, es[..|es| - 1]), es[|es| - 1];
      if e.t != t || e.Advance? || !Enabled(s, e) then Outcome(init, es[..|es| - 1], t)
      else if e.Finish? then Some(e.ok)
      else None
  }

  /** What the thread knows of how its functor has ended. */
  predicate Knows(pc: Pc, outcome: Option<bool>)
  {
    match pc
    case Idle => true
    case Complete(ok) => outcome == Some(ok)
    case Publish(ok) => outcome == Some(ok)
    case Release(ok) => outcome == Some(ok)
    case Destroy(ok) => outcome == Some(ok)
    case _ => outcome == None
  }

  /** The program counters of others do not change, and that of a thread changes with what it knows. */
  lemma KnowsStep(s: State, e: Event, t: nat, outcome: Option<bool>)
    requires Enabled(s, e) && t < |s.pcs| && Knows(s.pcs[t], outcome)
    ensures t < |Next(s, e).pcs|
    ensures var after := if e.t != t || e.Advance? then outcome else if e.Finish? then Some(e.ok) else None;
      Knows(Next(s, e).pcs[t], after)
  {
    hide Runner, MaxValue, Bits, Next, Knows;
    ChangesOne(s, e);
    if e.t == t {
      if Joining(s.pcs[t]) { JoiningKnows(s, e, outcome); }
      else if Owning(s.pcs[t]) { OwningKnows(s, e, outcome); }
      else { OtherKnows(s, e, outcome); }
    }
  }

  lemma ChangesOne(s: State, e: Event)
    requires Enabled(s, e)
    ensures |Next(s, e).pcs| == |s.pcs| && Next(s, e).pcs == s.pcs[e.t := Next(s, e).pcs[e.t]]
  {
    hide Runner, MaxValue, Bits;
  }

  lemma JoiningKnows(s: State, e: Event, outcome: Option<bool>)
    requires Enabled(s, e) && Joining(s.pcs[e.t]) && Knows(s.pcs[e.t], outcome) && e.t < |Next(s, e).pcs|
    ensures e.Advance? && Knows(Next(s, e).pcs[e.t], outcome)
  {
    hide Runner, MaxValue, Bits;
  }

  lemma OwningKnows(s: State, e: Event, outcome: Option<bool>)
    requires Enabled(s, e) && Owning(s.pcs[e.t]) && Knows(s.pcs[e.t], outcome) && e.t < |Next(s, e).pcs|
    ensures Knows(Next(s, e).pcs[e.t], if e.Finish? then Some(e.ok) else outcome) && !e.Call?
  {
    hide Runner, MaxValue, Bits;
  }

  lemma OtherKnows(s: State, e: Event, outcome: Option<bool>)
    requires Enabled(s, e) && !Owning(s.pcs[e.t]) && !Joining(s.pcs[e.t]) && Knows(s.pcs[e.t], outcome)
    requires e.t < |Next(s, e).pcs|
    ensures Knows(Next(s, e).pcs[e.t], if e.Advance? then outcome else None) && !e.Finish?
  {
    hide Runner, MaxValue, Bits;
  }

  lemma {:induction false} AlwaysKnows(init: State, es: seq<Event>, t: nat)
    requires Initial(init) && t < |init.pcs|
    ensures t < |Play(init, es).pcs| && Knows(Play(init, es).pcs[t], Outcome(init, es, t))
  {
    hide Next;
    if es != [] {
      AlwaysKnows(init, es[..|es| - 1], t);
      var s := Play(init, es[..|es| - 1]);
      if Enabled(s, es[|es| - 1]) { KnowsStep(s, es[|es| - 1], t, Outcome(init, es[..|es| - 1], t)); }
    }
  }

  /**
   In every run: a call that has run the functor returns, or throws, as that did; a call that has not
   returns normally, and only when the functor has completed.
   */
  lemma ReturnsTellTheTruth(init: State, es: seq<Event>, e: Event)
    requires Initial(init) && |init.pcs| <= MaxReferences + 1
    requires Enabled(Play(init, es), e) && Next(Play(init, es), e).results != Play(init, es).results
    ensures var s, s' := Play(init, es), Next(Play(init, es), e);
      && |s'.results| == |s.results| + 1 && s'.results[..|s.results|] == s.results
      && s'.results[|s.results|].t == e.t
      && var ok := s'.results[|s.results|].ok;
         if e.Advance? && Outcome(init, es, e.t).Some? then ok == Outcome(init, es, e.t).value
         else ok && s.completed == 1
  {
    hide WordInv, HelpInv, Next;
    InitialInv(init);
    PlayInv(init, es);
    PlaySameThreads(init, es);
    AlwaysKnows(init, es, e.t);
    var s := Play(init, es);
    ReturnsFrom(s, e);
    assert CallerInv(s, s.pcs[e.t], s.ready[e.t]);
  }

  /** From where a call returns, and with what. */
  lemma ReturnsFrom(s: State, e: Event)
    requires Enabled(s, e) && Next(s, e).results != s.results
    ensures var pc := s.pcs[e.t];
      || (e.Call? && s.word == Done && Next(s, e).results == s.results + [Return(e.t, true)])
      || (e.Advance? && pc.Leave? && Next(s, e).results == s.results + [Return(e.t, true)])
      || (e.Advance? && pc.Destroy? && Next(s, e).results == s.results + [Return(e.t, pc.ok)])
  {
    hide Runner, MaxValue, Bits;
  }

  /** How often thread `t` has called in the run, and how many of these calls have returned or thrown. */
  function Calls(init: State, es: seq<Event>, t: nat): nat
  {
    if es == [] then 0
    else
      var front, e := es[..|es| - 1], es[|es| - 1];
      Calls(init, front, t) + if e == Call(t) && Enabled(Play(init, front), e) then 1 else 0
  }

  function Ended(results: seq<Return>, t: nat): nat
  {
    if results == [] then 0
    else Ended(results[..|results| - 1], t) + if results[|results| - 1].t == t then 1 else 0
  }

  /** In every run, each call has ended with one result, but for the one that the thread is in. */
  lemma {:induction false} EveryCallEndsOnce(init: State, es: seq<Event>, t: nat)
    requires Initial(init) && t < |init.pcs|
    ensures var s := Play(init, es);
      t < |s.pcs| && Calls(init, es, t) == Ended(s.results, t) + if s.pcs[t] == Idle then 0 else 1
  {
    hide Next;
    if es != [] {
      var s, e := Play(init, es[..|es| - 1]), es[|es| - 1];
      EveryCallEndsOnce(init, es[..|es| - 1], t);
      if Enabled(s, e) {
        ChangesOne(s, e);
        EndsOnce(s, e);
        MoreEnded(s.results, Next(s, e).results, t);
      }
    }
  }

  /** A step ends a call just when it adds the call's result. */
  lemma EndsOnce(s: State, e: Event)
    requires Enabled(s, e)
    ensures var s' := Next(s, e);
      && e.t < |s'.pcs| && (s'.results == s.results || (exists ok :: s'.results == s.results + [Return(e.t, ok)]))
      && (if e.Call? then s.pcs[e.t] == Idle && (s'.pcs[e.t] == Idle <==> s'.results != s.results)
          else s.pcs[e.t] != Idle && (s'.pcs[e.t] == Idle <==> s'.results != s.results))
  {
    hide Runner, MaxValue, Bits;
    if Next(s, e).results != s.results { ReturnsFrom(s, e); }
  }

  lemma MoreEnded(results: seq<Return>, results': seq<Return>, t: nat)
    requires results' == results || exists u, ok :: results' == results + [Return(u, ok)]
    ensures Ended(results', t) ==
      Ended(results, t) + if results' != results && results'[|results|].t == t then 1 else 0
  {
    if results' != results {
      var u, ok :| results' == results + [Return(u, ok)];
      assert results'[..|results'| - 1] == results;
    }
  }

  /** Once done, every call returns at once. */
  lemma DoneReturnsAtOnce(s: State, t: nat)
    requires s.word == Done && Enabled(s, Call(t))
    ensures Next(s, Call(t)) == s.(results := s.results + [Return(t, true)])
  {}

  // ----- too many callers

  /** The word, without its low bits, points to the winner's runner. */
  predicate PointsToWinner(s: State)
  {
    s.word > Done ==> Wins(s, Runner(s.word))
  }

  /** Thread `h` joins the winner, and stops when it has added its reference. */
  function Join(h: nat): seq<Event>
  {
    [Call(h), Advance(h), Advance(h), Advance(h)]
  }

  lemma JoinAlone(s: State, h: nat)
    requires Shape(s) && h < |s.pcs| && s.pcs[h] == Idle && s.word > Done && s.word != MaxValue(s.word)
    ensures Play(s, Join(h)) == s.(word := s.word + 1, pcs := s.pcs[h := Guard(s.word)])
  {
    hide MaxValue, Runner;
    var s1 := Step(s, Call(h));
    assert s1 == s.(pcs := s.pcs[h := Load]);
    var s2 := Step(s1, Advance(h));
    assert s2 == s.(pcs := s.pcs[h := Spin(s.word)]);
    var s3 := Step(s2, Advance(h));
    assert s3 == s.(pcs := s.pcs[h := AddRef(s.word)]);
    var s4 := Step(s3, Advance(h));
    assert s4 == s.(word := s.word + 1, pcs := s.pcs[h := Guard(s.word)]);
    Runs.PlayFirst(Step, s, Join(h));
    assert Join(h)[1..] == [Advance(h), Advance(h), Advance(h)];
    Runs.PlayThree(Step, s1, Advance(h), Advance(h), Advance(h));
  }

  /** The first `k` of the threads 0 and 2 to 127 join, one after the other. */
  function Joins(k: nat): seq<Event>
  {
    if k == 0 then [] else Joins(k - 1) + Join(if k == 1 then 0 else k)
  }

  predicate HasJoined(h: nat, k: nat)
  {
    if h == 0 then k > 0 else 2 <= h <= k
  }

  lemma {:induction false} JoinsAlone(s: State, k: nat)
    requires k < MaxReferences && Shape(s) && |s.pcs| > MaxReferences && s.word == Bits(1)
    requires s.pcs[0] == Idle && forall h :: 2 <= h < MaxReferences ==> s.pcs[h] == Idle
    ensures var s' := Play(s, Joins(k));
      && s' == s.(word := Bits(1) + k, pcs := s'.pcs) && |s'.pcs| == |s.pcs|
      && forall h :: 0 <= h < |s.pcs| ==> if HasJoined(h, k) then s'.pcs[h].Guard? else s'.pcs[h] == s.pcs[h]
  {
    hide Step;
    if k > 0 {
      var h := if k == 1 then 0 else k;
      JoinsAlone(s, k - 1);
      Runs.PlayConcat(Step, s, Joins(k - 1), Join(h));
      assert !HasJoined(h, k - 1) && Bits(1) + k - 1 != MaxValue(Bits(1) + k - 1);
      JoinAlone(Play(s, Joins(k - 1)), h);
    }
  }

  /** Thread 128 has seen the runner of thread 0, and stops before it looks at the word again. */
  function Stall(): seq<Event>
  {
    [Call(MaxReferences), Advance(MaxReferences)]
  }

  function Resume(): seq<Event>
  {
    [Advance(MaxReferences), Advance(MaxReferences)]
  }

  /**
   Thread 0 wins and thread 128 sees that; thread 0's functor throws; thread 1 wins; 127 threads each add a
   reference, so that the count is full; and thread 128, whose bound is that of thread 0's runner, adds another.
   */
  function Overflow(): seq<Event>
  {
    Begin(0) + Stall() + End(0, false) + Begin(1) + Joins(MaxReferences - 1) + Resume()
  }

  lemma StallAlone(s: State)
    requires Shape(s) && |s.pcs| > MaxReferences && s.pcs[MaxReferences] == Idle && s.word > Done
    ensures Play(s, Stall()) == s.(pcs := s.pcs[MaxReferences := Spin(s.word)])
  {
    var s1 := Step(s, Call(MaxReferences));
    assert s1 == s.(pcs := s.pcs[MaxReferences := Load]);
    Runs.PlayFirst(Step, s, Stall());
    Runs.PlayFirst(Step, s1, [Advance(MaxReferences)]);
    assert Stall()[1..] == [Advance(MaxReferences)] && [Advance(MaxReferences)][1..] == [];
  }

  lemma ResumeAlone(s: State, stale: nat)
    requires Shape(s) && |s.pcs| > MaxReferences && s.pcs[MaxReferences] == Spin(stale)
    requires s.word > Done && s.word != MaxValue(stale)
    ensures Play(s, Resume()) == s.(word := s.word + 1, pcs := s.pcs[MaxReferences := Guard(s.word)])
  {
    hide MaxValue, Runner;
    var s1 := Step(s, Advance(MaxReferences));
    assert s1 == s.(pcs := s.pcs[MaxReferences := AddRef(s.word)]);
    Runs.PlayFirst(Step, s, Resume());
    Runs.PlayFirst(Step, s1, [Advance(MaxReferences)]);
    assert Resume()[1..] == [Advance(MaxReferences)] && [Advance(MaxReferences)][1..] == [];
  }

  /** Up to the second win: the first winner has thrown, and thread 128 still has its pointer. */
  lemma SecondWin(init: State) returns (s: State)
    requires Initial(init) && |init.pcs| > MaxReferences
    ensures s == Play(init, Begin(0) + Stall() + End(0, false) + Begin(1))
    ensures Shape(s) && s.word == Bits(1) && s.pcs == init.pcs[1 := Run][MaxReferences := Spin(Bits(0))]
  {
    hide Step, Runs.Play;
    BeginAlone(init, 0);
    var s1 := Play(init, Begin(0));
    StallAlone(s1);
    var s2 := Play(s1, Stall());
    EndAlone(s2, 0, false);
    var s3 := Play(s2, End(0, false));
    BeginAlone(s3, 1);
    s := Play(s3, Begin(1));
    assert s.pcs == init.pcs[1 := Run][MaxReferences := Spin(Bits(0))];
    Runs.PlayConcat(Step, init, Begin(0), Stall());
    Runs.PlayConcat(Step, init, Begin(0) + Stall(), End(0, false));
    Runs.PlayConcat(Step, init, Begin(0) + Stall() + End(0, false), Begin(1));
  }

  /** The count carries into the pointer, which now is that of thread 2. */
  lemma OneCallerTooMany(init: State)
    requires Initial(init) && |init.pcs| > MaxReferences
    ensures var s := Play(init, Overflow());
      && Shape(s) && s.word == Bits(2) && |s.pcs| == |init.pcs| && s.pcs[2].Guard?
      && forall h :: MaxReferences < h < |s.pcs| ==> s.pcs[h] == Idle
  {
    hide Step, Runs.Play;
    var before := Begin(0) + Stall() + End(0, false) + Begin(1);
    var s := SecondWin(init);
    JoinsAlone(s, MaxReferences - 1);
    var full := Play(s, Joins(MaxReferences - 1));
    assert HasJoined(2, MaxReferences - 1);
    assert full.word != MaxValue(Bits(0));
    ResumeAlone(full, Bits(0));
    Runs.PlayConcat(Step, init, before, Joins(MaxReferences - 1));
    Runs.PlayConcat(Step, init, before + Joins(MaxReferences - 1), Resume());
  }

  lemma PointerIsRight(init: State, es: seq<Event>)
    requires Initial(init) && |init.pcs| <= MaxReferences
    ensures PointsToWinner(Play(init, es))
  {
    InitialInv(init);
    PlayInv(init, es);
    PlaySameThreads(init, es);
    var s := Play(init, es);
    if s.word > Done {
      var w := RefsFit(s, 0);
      RunnerOf(w, WordRefs(s));
    }
  }

  lemma PlaySameThreads(init: State, es: seq<Event>)
    ensures |Play(init, es).pcs| == |init.pcs|
  {
    var same := (s: State) => |s.pcs| == |init.pcs|;
    assert forall s: State, e: Event :: same(s) ==> same(Step(s, e));
    Runs.PlayKeeps(Step, same, init, es);
  }

  /** The word always points to the winner, if and only if there are at most 128 callers. */
  lemma PointerNeedsFewCallers(init: State)
    requires Initial(init)
    ensures (forall es :: PointsToWinner(Play(init, es))) <==> |init.pcs| <= MaxReferences
  {
    if |init.pcs| <= MaxReferences {
      forall es ensures PointsToWinner(Play(init, es)) { PointerIsRight(init, es); }
    } else {
      OneCallerTooMany(init);
      assert !PointsToWinner(Play(init, Overflow()));
    }
  }

  /** A wrong pointer does harm as soon as there is a caller left to use it. */
  lemma WrongRunnerTouched(init: State)
    requires Initial(init) && |init.pcs| > MaxReferences + 1
    ensures !AllTouchSafely(Play(init, Overflow() + Join(MaxReferences + 1)))
  {
    hide Step, Runs.Play;
    OneCallerTooMany(init);
    var s := Play(init, Overflow());
    JoinAlone(s, MaxReferences + 1);
    Runs.PlayConcat(Step, init, Overflow(), Join(MaxReferences + 1));
    var s' := Play(s, Join(MaxReferences + 1));
    assert s'.pcs[MaxReferences + 1] == Guard(Bits(2)) && !TouchesSafely(s', Guard(Bits(2)));
  }

  /** Nobody ever touches a runner that is not in use, if and only if there are at most 129 callers. */
  lemma SafetyNeedsFewCallers(init: State)
    requires Initial(init)
    ensures (forall es :: AllTouchSafely(Play(init, es))) <==> |init.pcs| <= MaxReferences + 1
  {
    if |init.pcs| <= MaxReferences + 1 {
      forall es ensures AllTouchSafely(Play(init, es)) { CallOnceIsSafe(init, es); }
    } else {
      WrongRunnerTouched(init);
    }
  }
}
