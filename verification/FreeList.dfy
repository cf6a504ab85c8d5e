/**
 The lock-free free list of blocks, with any number of threads adding and taking blocks at once.

 Each step is one atomic operation of `add`, `try_get` or `add_knowing_refcount_is_zero`.
 `chain` and `place` are history variables: no shared word depends on them, and no guard but that of
 entering `add`, which the source asks of its callers: a thread adds only a node that clients hold.
 */
module FreeList {
  import opened Counting
  import opened Sequences
  import opened Wrappers
  import Runs

  type Link = Option<nat>

  /** SHOULD_BE_ON_FREELIST: the top bit of a 32-bit reference word.  REFS_MASK selects the bits below it. */
  const FLAG: nat := 0x8000_0000

  /** What a thread does after it has published a node: return from `add`, or go on looping in `try_get`. */
  datatype After = Return | Retry(head: Link)

  datatype Pc =
    | Idle
    // add
    | RaiseFlag(node: nat)
    // add_knowing_refcount_is_zero
    | ReadHead(node: nat, after: After)
    | StoreNext(node: nat, expected: Link, after: After)
    | StoreRefs(node: nat, expected: Link, after: After)
    | PushHead(node: nat, expected: Link, after: After)
    | Unpublish(node: nat, expected: Link, after: After)
    // try_get
    | LoadHead
    | LoadRefs(node: nat)
    | TakeRef(node: nat, refs: nat)
    | LoadNext(node: nat)
    | PopHead(node: nat, next: Link)
    | DropTwo(node: nat)
    | DropOne(node: nat, head: Link)

  /** Where a node is.  Every node is in exactly one place. */
  datatype Place =
    | Client                // outside the list, in use
    | Adding(t: nat)        // handed to `add` by thread t, not yet flagged
    | Preparing(t: nat)     // thread t alone prepares to publish it
    | Offering(t: nat)      // thread t tries to make it the head
    | Deferred              // flagged; whoever drops the last reference will publish it
    | Listed
    | Taken(t: nat)         // thread t has removed it and is about to hand it out

  datatype State = State(
    head: Link,
    refs: seq<nat>,
    next: seq<Link>,
    pcs: seq<Pc>,
    chain: seq<nat>,
    place: seq<Place>)

  datatype Event = StartAdd(t: nat, node: nat) | StartGet(t: nat) | Advance(t: nat)

  predicate Enabled(s: State, e: Event)
  {
    match e
    case StartAdd(t, node) =>
      t < |s.pcs| && s.pcs[t] == Idle && node < |s.place| && s.place[node] == Client
    case StartGet(t) => t < |s.pcs| && s.pcs[t] == Idle
    case Advance(t) => t < |s.pcs| && s.pcs[t] != Idle
  }

  /** The loop of `try_get` with `head` just loaded: it returns null once `head` is null. */
  function Loop(head: Link): Pc
  {
    match head
    case None => Idle
    case Some(node) => LoadRefs(node)
  }

  function Continue(after: After): Pc
  {
    match after
    case Return => Idle
    case Retry(head) => Loop(head)
  }

  function Goto(s: State, t: nat, pc: Pc): State
    requires t < |s.pcs|
  {
    s.(pcs := s.pcs[t := pc])
  }

  function Put(s: State, node: nat, place: Place): State
    requires node < |s.place|
  {
    s.(place := s.place[node := place])
  }

  function SetRefs(s: State, node: nat, refs: nat): State
    requires node < |s.refs|
  {
    s.(refs := s.refs[node := refs])
  }

  predicate Shape(s: State)
  {
    && |s.refs| == |s.next| == |s.place|
    && (forall t :: 0 <= t < |s.pcs| ==> PcInRange(s.pcs[t], |s.refs|))
    && LinkInRange(s.head, |s.refs|)
    && (forall n :: 0 <= n < |s.next| ==> LinkInRange(s.next[n], |s.refs|))
  }

  predicate LinkInRange(link: Link, nodes: nat) { link.Some? ==> link.value < nodes }

  predicate AfterInRange(after: After, nodes: nat) { after.Retry? ==> LinkInRange(after.head, nodes) }

  predicate PcInRange(pc: Pc, nodes: nat)
  {
    match pc
    case Idle => true
    case LoadHead => true
    case RaiseFlag(node) => node < nodes
    case ReadHead(node, after) => node < nodes && AfterInRange(after, nodes)
    case StoreNext(node, expected, after) => node < nodes && LinkInRange(expected, nodes) && AfterInRange(after, nodes)
    case StoreRefs(node, expected, after) => node < nodes && LinkInRange(expected, nodes) && AfterInRange(after, nodes)
    case PushHead(node, expected, after) => node < nodes && LinkInRange(expected, nodes) && AfterInRange(after, nodes)
    case Unpublish(node, expected, after) => node < nodes && LinkInRange(expected, nodes) && AfterInRange(after, nodes)
    case LoadRefs(node) => node < nodes
    case TakeRef(node, _) => node < nodes
    case LoadNext(node) => node < nodes
    case PopHead(node, next) => node < nodes && LinkInRange(next, nodes)
    case DropTwo(node) => node < nodes
    case DropOne(node, head) => node < nodes && LinkInRange(head, nodes)
  }

  /** A reference word is 32 bits wide: addition and subtraction wrap around. */
  function Plus(word: nat, k: int): nat
  {
    (word + k) % (2 * FLAG)
  }

  lemma PlusInRange(word: nat, k: int)
    requires 0 <= word + k < 2 * FLAG
    ensures Plus(word, k) == word + k
  {}

  function Next(s: State, e: Event): State
    requires Shape(s) && Enabled(s, e)
  {
    match e
    case StartAdd(t, node) => Put(Goto(s, t, RaiseFlag(node)), node, Adding(t))
    case StartGet(t) => Goto(s, t, LoadHead)
    case Advance(t) => Move(s, t)
  }

  function Move(s: State, t: nat): State
    requires Shape(s) && t < |s.pcs|
  {
    match s.pcs[t]
    case Idle => s
    case RaiseFlag(node) =>
      var flagged := SetRefs(s, node, Plus(s.refs[node], FLAG));
      if s.refs[node] == 0 then Put(Goto(flagged, t, ReadHead(node, Return)), node, Preparing(t))
      else Put(Goto(flagged, t, Idle), node, Deferred)
    case ReadHead(node, after) => Goto(s, t, StoreNext(node, s.head, after))
    case StoreNext(node, expected, after) =>
      Goto(s.(next := s.next[node := expected]), t, StoreRefs(node, expected, after))
    case StoreRefs(node, expected, after) =>
      Put(Goto(SetRefs(s, node, 1), t, PushHead(node, expected, after)), node, Offering(t))
    case PushHead(node, expected, after) =>
      if s.head == expected then
        Put(Goto(s.(head := Some(node), chain := [node] + s.chain), t, Continue(after)), node, Listed)
      else
        Goto(s, t, Unpublish(node, s.head, after))
    case Unpublish(node, expected, after) =>
      var deferred := SetRefs(s, node, Plus(s.refs[node], FLAG - 1));
      if s.refs[node] == 1 then Put(Goto(deferred, t, StoreNext(node, expected, after)), node, Preparing(t))
      else Put(Goto(deferred, t, Continue(after)), node, Deferred)
    case LoadHead => Goto(s, t, Loop(s.head))
    case LoadRefs(node) =>
      if s.refs[node] % FLAG == 0 then Goto(s, t, LoadHead) else Goto(s, t, TakeRef(node, s.refs[node]))
    case TakeRef(node, refs) =>
      if s.refs[node] == refs then Goto(SetRefs(s, node, Plus(refs, 1)), t, LoadNext(node))
      else Goto(s, t, LoadHead)
    case LoadNext(node) => Goto(s, t, PopHead(node, s.next[node]))
    case PopHead(node, next) =>
      if s.head == Some(node) then
        Put(Goto(s.(head := next, chain := if s.chain == [] then [] else s.chain[1..]), t, DropTwo(node)), node, Taken(t))
      else
        Goto(s, t, DropOne(node, s.head))
    case DropTwo(node) =>
      Put(Goto(SetRefs(s, node, Plus(s.refs[node], -2)), t, Idle), node, Client)
    case DropOne(node, head) =>
      var dropped := SetRefs(s, node, Plus(s.refs[node], -1));
      if s.refs[node] == FLAG + 1 then Put(Goto(dropped, t, ReadHead(node, Retry(head))), node, Preparing(t))
      else Goto(dropped, t, Loop(head))
  }

  ghost predicate Initial(s: State)
  {
    && |s.refs| == |s.next| == |s.place|
    && |s.pcs| + 1 < FLAG
    && s.head == None && s.chain == []
    && (forall n :: 0 <= n < |s.refs| ==> s.refs[n] == 0 && s.next[n] == None && s.place[n] == Client)
    && (forall t :: 0 <= t < |s.pcs| ==> s.pcs[t] == Idle)
  }

  // ----- transient references

  /** The thread has added one to the reference count of `n` in `try_get` and has not taken it back. */
  predicate Holds(pc: Pc, n: nat)
  {
    match pc
    case LoadNext(node) => node == n
    case PopHead(node, _) => node == n
    case DropTwo(node) => node == n
    case DropOne(node, _) => node == n
    case _ => false
  }

  function Holders(pcs: seq<Pc>, n: nat): nat
  {
    if pcs == [] then 0 else (if Holds(pcs[0], n) then 1 else 0) + Holders(pcs[1..], n)
  }

  lemma {:induction false} HoldersUpdate(pcs: seq<Pc>, t: nat, pc: Pc, n: nat)
    requires t < |pcs|
    ensures Holders(pcs[t := pc], n)
         == Holders(pcs, n) - (if Holds(pcs[t], n) then 1 else 0) + (if Holds(pc, n) then 1 else 0)
  {
    if t == 0 {
      assert pcs[0 := pc][1..] == pcs[1..];
    } else {
      assert pcs[t := pc][1..] == pcs[1..][t - 1 := pc];
      HoldersUpdate(pcs[1..], t - 1, pc, n);
    }
  }

  lemma {:induction false} HoldersBounds(pcs: seq<Pc>, n: nat)
    ensures Holders(pcs, n) <= |pcs|
    ensures Holders(pcs, n) == 0 <==> forall t :: 0 <= t < |pcs| ==> !Holds(pcs[t], n)
  {
    if pcs != [] {
      HoldersBounds(pcs[1..], n);
      assert forall t :: 0 <= t < |pcs[1..]| ==> pcs[1..][t] == pcs[t + 1];
      assert forall t :: 1 <= t < |pcs| ==> pcs[t] == pcs[1..][t - 1];
    }
  }

  // ----- the invariant

  /** The thread at this point is responsible for a node's place. */
  predicate Responsible(pc: Pc)
  {
    pc.RaiseFlag? || pc.ReadHead? || pc.StoreNext? || pc.StoreRefs? || pc.PushHead? || pc.Unpublish? || pc.DropTwo?
  }

  function PlaceBy(pc: Pc, t: nat): Place
    requires Responsible(pc)
  {
    match pc
    case RaiseFlag(_) => Adding(t)
    case ReadHead(_, _) => Preparing(t)
    case StoreNext(_, _, _) => Preparing(t)
    case StoreRefs(_, _, _) => Preparing(t)
    case PushHead(_, _, _) => Offering(t)
    case Unpublish(_, _, _) => Offering(t)
    case DropTwo(_) => Taken(t)
  }

  /** A node's place and the program counter of the thread it names agree. */
  ghost predicate PlaceInv(s: State)
    requires |s.refs| == |s.next| == |s.place|
  {
    && (forall t :: 0 <= t < |s.pcs| && Responsible(s.pcs[t]) ==>
          s.pcs[t].node < |s.place| && s.place[s.pcs[t].node] == PlaceBy(s.pcs[t], t))
    && (forall n :: 0 <= n < |s.place| ==> PlaceNamesThread(s, n))
  }

  ghost predicate PlaceNamesThread(s: State, n: nat)
    requires n < |s.place|
  {
    s.place[n].Adding? || s.place[n].Preparing? || s.place[n].Offering? || s.place[n].Taken? ==>
      var t := s.place[n].t;
      t < |s.pcs| && Responsible(s.pcs[t]) && s.pcs[t].node == n && PlaceBy(s.pcs[t], t) == s.place[n]
  }

  /** The reference that the list itself, its publisher or its taker holds. */
  function OwnRef(place: Place): nat
  {
    if place.Listed? || place.Offering? || place.Taken? then 1 else 0
  }

  predicate Flagged(place: Place) { place.Deferred? || place.Preparing? }

  ghost predicate RefInv(s: State, n: nat)
    requires n < |s.refs| == |s.place|
  {
    && s.refs[n] == Holders(s.pcs, n) + OwnRef(s.place[n]) + (if Flagged(s.place[n]) then FLAG else 0)
    && (s.place[n].Deferred? ==> Holders(s.pcs, n) > 0)
    && (s.place[n].Preparing? ==> Holders(s.pcs, n) == 0)
  }

  /** From `head`, following `next`, one walks exactly the nodes of `chain`, and then reaches null. */
  predicate Walks(head: Link, next: seq<Link>, chain: seq<nat>)
    decreases |chain|
  {
    if chain == [] then head == None
    else head == Some(chain[0]) && chain[0] < |next| && Walks(next[chain[0]], next, chain[1..])
  }

  ghost predicate ChainInv(s: State)
  {
    && Walks(s.head, s.next, s.chain)
    && Distinct(s.chain)
    && (forall n :: n in s.chain ==> n < |s.place|)
    && (forall n :: 0 <= n < |s.place| ==> (s.place[n] == Listed <==> n in s.chain))
  }

  ghost predicate LocalInv(s: State, t: nat)
    requires t < |s.pcs| && Shape(s)
  {
    match s.pcs[t]
    case StoreRefs(node, expected, _) => s.next[node] == expected
    case PushHead(node, expected, _) => s.next[node] == expected
    case PopHead(node, next) => s.next[node] == next
    case TakeRef(_, refs) => refs % FLAG != 0
    case _ => true
  }

  ghost predicate Inv(s: State)
  {
    && Shape(s)
    && |s.pcs| + 1 < FLAG
    && PlaceInv(s)
    && ChainInv(s)
    && (forall n :: 0 <= n < |s.refs| ==> RefInv(s, n))
    && (forall t :: 0 <= t < |s.pcs| ==> LocalInv(s, t))
  }

  lemma InitialInv(s: State)
    requires Initial(s)
    ensures Inv(s)
  {
    forall n | 0 <= n < |s.refs| ensures RefInv(s, n) {
      HoldersBounds(s.pcs, n);
    }
  }

  /** `s'` differs from `s` in thread `t` and, in refs, place and next, at node `n` only. */
  ghost predicate Touches(s: State, s': State, t: nat, n: nat)
    requires Shape(s)
  {
    && Shape(s') && |s'.refs| == |s.refs| && |s'.pcs| == |s.pcs| && t < |s.pcs| && n < |s.refs|
    && s'.pcs == s.pcs[t := s'.pcs[t]]
    && (forall m :: 0 <= m < |s.refs| && m != n ==>
          s'.refs[m] == s.refs[m] && s'.place[m] == s.place[m] && s'.next[m] == s.next[m])
    && (forall m :: m != n ==> (Holds(s'.pcs[t], m) <==> Holds(s.pcs[t], m)))
  }

  /** Thread `t` may move node `n`: the node was in no thread's hands, or in those of `t`. */
  ghost predicate Entitled(s: State, s': State, t: nat, n: nat)
    requires Shape(s) && Touches(s, s', t, n)
  {
    && (Responsible(s.pcs[t]) ==> s.pcs[t].node == n)
    && (Responsible(s'.pcs[t]) ==> s'.pcs[t].node == n && s'.place[n] == PlaceBy(s'.pcs[t], t))
    && ((Responsible(s.pcs[t]) || s'.place[n] != s.place[n])
        && (s'.place[n].Adding? || s'.place[n].Preparing? || s'.place[n].Offering? || s'.place[n].Taken?) ==>
          Responsible(s'.pcs[t]) && s'.place[n] == PlaceBy(s'.pcs[t], t))
    && (Responsible(s.pcs[t]) || s'.place[n] == s.place[n]
        || s.place[n].Client? || s.place[n].Deferred? || s.place[n].Listed?)
  }

  lemma KeepPlaces(s: State, s': State, t: nat, n: nat)
    requires Inv(s) && Touches(s, s', t, n) && Entitled(s, s', t, n)
    ensures PlaceInv(s')
  {
    forall u | 0 <= u < |s'.pcs| && Responsible(s'.pcs[u])
      ensures s'.pcs[u].node < |s'.place| && s'.place[s'.pcs[u].node] == PlaceBy(s'.pcs[u], u)
    {
      if u != t {
        assert s.place[s.pcs[u].node] == PlaceBy(s.pcs[u], u);
      }
    }
    forall m | 0 <= m < |s'.place| ensures PlaceNamesThread(s', m) {
      assert PlaceNamesThread(s, m);
    }
  }

  lemma KeepRefs(s: State, s': State, t: nat, n: nat)
    requires Inv(s) && Touches(s, s', t, n)
    requires RefInv(s', n)
    ensures forall m :: 0 <= m < |s'.refs| ==> RefInv(s', m)
  {
    forall m | 0 <= m < |s'.refs| ensures RefInv(s', m) {
      assert RefInv(s, m);
      HoldersUpdate(s.pcs, t, s'.pcs[t], m);
    }
  }

  /** Only the thread that prepares a node writes its next pointer, and nobody holds a reference then. */
  lemma KeepLocal(s: State, s': State, t: nat, n: nat)
    requires Inv(s) && Touches(s, s', t, n)
    requires LocalInv(s', t)
    requires s'.next != s.next ==> s.pcs[t].StoreNext? && s.pcs[t].node == n
    ensures forall u :: 0 <= u < |s'.pcs| ==> LocalInv(s', u)
  {
    forall u | 0 <= u < |s'.pcs| ensures LocalInv(s', u) {
      assert LocalInv(s, u);
      if u != t && s'.next != s.next {
        assert s.place[n] == Preparing(t);
        assert RefInv(s, n);
        HoldersBounds(s.pcs, n);
        assert !Holds(s.pcs[u], n);
      }
    }
  }

  /** The walk does not depend on the next pointers of nodes outside it. */
  lemma {:induction false} WalkFrame(head: Link, next: seq<Link>, next': seq<Link>, chain: seq<nat>)
    requires Walks(head, next, chain) && |next'| == |next|
    requires forall m :: m in chain && m < |next| ==> next'[m] == next[m]
    ensures Walks(head, next', chain)
    decreases |chain|
  {
    if chain != [] {
      WalkFrame(next[chain[0]], next, next', chain[1..]);
    }
  }

  lemma KeepChain(s: State, s': State, t: nat, n: nat)
    requires Inv(s) && Touches(s, s', t, n)
    requires s'.head == s.head && s'.chain == s.chain
    requires s.place[n] == Listed <==> s'.place[n] == Listed
    requires s'.next[n] == s.next[n] || s.place[n] != Listed
    ensures ChainInv(s')
  {
    WalkFrame(s.head, s.next, s'.next, s.chain);
    forall m | 0 <= m < |s'.place| ensures s'.place[m] == Listed <==> m in s'.chain {
      assert s.place[m] == Listed <==> m in s.chain;
    }
  }

  /** The reference count of a node fits below the flag bit: each thread holds at most one reference. */
  lemma RefBound(s: State, n: nat)
    requires Inv(s) && n < |s.refs|
    ensures Holders(s.pcs, n) + 1 < FLAG
    ensures s.refs[n] % FLAG == Holders(s.pcs, n) + OwnRef(s.place[n])
    ensures s.refs[n] < 2 * FLAG
  {
    HoldersBounds(s.pcs, n);
    assert RefInv(s, n);
  }

  /** A step that is entitled to its node and keeps the facts about that node keeps them all. */
  lemma NodeStep(s: State, s': State, t: nat, n: nat)
    requires Inv(s) && Touches(s, s', t, n) && Entitled(s, s', t, n)
    requires RefInv(s', n) && LocalInv(s', t) && ChainInv(s')
    requires s'.next != s.next ==> s.pcs[t].StoreNext? && s.pcs[t].node == n
    ensures Inv(s')
  {
    KeepPlaces(s, s', t, n);
    KeepRefs(s, s', t, n);
    KeepLocal(s, s', t, n);
  }

  /** A step that only moves thread `t`, without references changing hands. */
  lemma QuietStep(s: State, t: nat, pc: Pc)
    requires Inv(s) && t < |s.pcs| && PcInRange(pc, |s.refs|)
    requires forall n :: Holds(pc, n) <==> Holds(s.pcs[t], n)
    requires if Responsible(pc) then
        Responsible(s.pcs[t]) && pc.node == s.pcs[t].node && PlaceBy(pc, t) == PlaceBy(s.pcs[t], t)
             else !Responsible(s.pcs[t])
    requires LocalInv(Goto(s, t, pc), t)
    ensures Inv(Goto(s, t, pc))
  {
    var s' := Goto(s, t, pc);
    forall n | 0 <= n < |s'.refs| ensures RefInv(s', n) {
      assert RefInv(s, n);
      HoldersUpdate(s.pcs, t, pc, n);
    }
    forall n | 0 <= n < |s'.place| ensures PlaceNamesThread(s', n) {
      assert PlaceNamesThread(s, n);
    }
    forall u | 0 <= u < |s'.pcs| ensures LocalInv(s', u) {
      assert LocalInv(s, u);
    }
  }

  /** Making an unlisted node the head. */
  lemma PushKeepsChain(s: State, s': State, n: nat)
    requires ChainInv(s) && |s'.place| == |s.place| && n < |s.place| == |s.next| && s.place[n] != Listed
    requires s'.next == s.next && s.next[n] == s.head
    requires s'.head == Some(n) && s'.chain == [n] + s.chain && s'.place == s.place[n := Listed]
    ensures ChainInv(s')
  {
    assert s'.chain[1..] == s.chain;
    assert n !in s.chain;
    forall m | 0 <= m < |s'.place| ensures s'.place[m] == Listed <==> m in s'.chain {
      assert s.place[m] == Listed <==> m in s.chain;
    }
  }

  /** Making the successor of the head the head. */
  lemma PopKeepsChain(s: State, s': State, n: nat)
    requires ChainInv(s) && |s'.place| == |s.place| && n < |s.place| == |s.next| && s.head == Some(n)
    requires s'.next == s.next && s'.head == s.next[n]
    requires s.chain != [] ==> s'.chain == s.chain[1..]
    requires s'.place[n] != Listed && s'.place == s.place[n := s'.place[n]]
    ensures ChainInv(s') && s.place[n] == Listed
  {
    assert s.chain != [] && s.chain[0] == n;
    assert s.place[n] == Listed;
    assert s.chain == [n] + s'.chain;
    assert forall m :: m in s'.chain ==> m in s.chain;
    forall m | 0 <= m < |s'.place| ensures s'.place[m] == Listed <==> m in s'.chain {
      assert s.place[m] == Listed <==> m in s.chain;
    }
  }

  lemma ShapeAfter(s: State, s': State, t: nat)
    requires Shape(s) && t < |s.pcs| == |s'.pcs|
    requires |s'.refs| == |s'.next| == |s'.place| == |s.refs|
    requires s'.pcs == s.pcs[t := s'.pcs[t]] && PcInRange(s'.pcs[t], |s.refs|)
    requires LinkInRange(s'.head, |s.refs|)
    requires forall n :: 0 <= n < |s.next| ==> s'.next[n] == s.next[n] || LinkInRange(s'.next[n], |s.refs|)
    ensures Shape(s')
  {}

  // ----- each atomic operation keeps the invariant

  lemma StartAddInv(s: State, t: nat, n: nat)
    requires Inv(s) && Enabled(s, StartAdd(t, n))
    ensures Inv(Next(s, StartAdd(t, n)))
  {
    var s' := Next(s, StartAdd(t, n));
    HoldersUpdate(s.pcs, t, s'.pcs[t], n);
    assert RefInv(s, n);
    KeepChain(s, s', t, n);
    NodeStep(s, s', t, n);
  }

  lemma RaiseFlagInv(s: State, t: nat)
    requires Inv(s) && t < |s.pcs| && s.pcs[t].RaiseFlag?
    ensures Inv(Move(s, t))
  {
    var s', n := Move(s, t), s.pcs[t].node;
    ShapeAfter(s, s', t);
    assert s.place[n] == Adding(t);
    RefBound(s, n);
    assert RefInv(s, n);
    PlusInRange(s.refs[n], FLAG);
    assert Touches(s, s', t, n) && Entitled(s, s', t, n);
    HoldersUpdate(s.pcs, t, s'.pcs[t], n);
    KeepChain(s, s', t, n);
    NodeStep(s, s', t, n);
  }

  lemma StoreNextInv(s: State, t: nat)
    requires Inv(s) && t < |s.pcs| && s.pcs[t].StoreNext?
    ensures Inv(Move(s, t))
  {
    var s', n := Move(s, t), s.pcs[t].node;
    ShapeAfter(s, s', t);
    assert s.place[n] == Preparing(t);
    HoldersUpdate(s.pcs, t, s'.pcs[t], n);
    assert RefInv(s, n);
    KeepChain(s, s', t, n);
    NodeStep(s, s', t, n);
  }

  lemma StoreRefsInv(s: State, t: nat)
    requires Inv(s) && t < |s.pcs| && s.pcs[t].StoreRefs?
    ensures Inv(Move(s, t))
  {
    var s', n := Move(s, t), s.pcs[t].node;
    ShapeAfter(s, s', t);
    assert s.place[n] == Preparing(t);
    HoldersUpdate(s.pcs, t, s'.pcs[t], n);
    assert RefInv(s, n);
    assert LocalInv(s, t);
    KeepChain(s, s', t, n);
    NodeStep(s, s', t, n);
  }

  lemma PushHeadInv(s: State, t: nat)
    requires Inv(s) && t < |s.pcs| && s.pcs[t].PushHead?
    ensures Inv(Move(s, t))
  {
    var s', n := Move(s, t), s.pcs[t].node;
    assert s.place[n] == Offering(t);
    assert RefInv(s, n) && LocalInv(s, t);
    if s.head == s.pcs[t].expected {
      ShapeAfter(s, s', t);
      HoldersUpdate(s.pcs, t, s'.pcs[t], n);
      PushKeepsChain(s, s', n);
      NodeStep(s, s', t, n);
    } else {
      QuietStep(s, t, s'.pcs[t]);
    }
  }

  lemma UnpublishInv(s: State, t: nat)
    requires Inv(s) && t < |s.pcs| && s.pcs[t].Unpublish?
    ensures Inv(Move(s, t))
  {
    var s', n := Move(s, t), s.pcs[t].node;
    ShapeAfter(s, s', t);
    assert s.place[n] == Offering(t);
    RefBound(s, n);
    assert RefInv(s, n);
    PlusInRange(s.refs[n], FLAG - 1);
    HoldersUpdate(s.pcs, t, s'.pcs[t], n);
    KeepChain(s, s', t, n);
    NodeStep(s, s', t, n);
  }

  lemma TakeRefInv(s: State, t: nat)
    requires Inv(s) && t < |s.pcs| && s.pcs[t].TakeRef?
    ensures Inv(Move(s, t))
  {
    var s', n := Move(s, t), s.pcs[t].node;
    ShapeAfter(s, s', t);
    assert LocalInv(s, t);
    if s.refs[n] == s.pcs[t].refs {
      RefBound(s, n);
      assert RefInv(s, n);
      PlusInRange(s.refs[n], 1);
      HoldersUpdate(s.pcs, t, s'.pcs[t], n);
      assert Touches(s, s', t, n) && Entitled(s, s', t, n);
      KeepChain(s, s', t, n);
      NodeStep(s, s', t, n);
    } else {
      QuietStep(s, t, s'.pcs[t]);
    }
  }

  lemma PopHeadInv(s: State, t: nat)
    requires Inv(s) && t < |s.pcs| && s.pcs[t].PopHead?
    ensures Inv(Move(s, t))
  {
    var s', n := Move(s, t), s.pcs[t].node;
    assert LocalInv(s, t);
    if s.head == Some(n) {
      ShapeAfter(s, s', t);
      PopKeepsChain(s, s', n);
      assert RefInv(s, n);
      HoldersUpdate(s.pcs, t, s'.pcs[t], n);
      NodeStep(s, s', t, n);
    } else {
      QuietStep(s, t, s'.pcs[t]);
    }
  }

  /**
   The source asserts that a node just taken off the list does not carry the flag; so it does not,
   and the count it carries covers the two references that are taken back.
   */
  lemma TakenIsNotFlagged(s: State, t: nat)
    requires Inv(s) && t < |s.pcs| && s.pcs[t].DropTwo?
    ensures var n := s.pcs[t].node; 2 <= s.refs[n] < FLAG
  {
    var n := s.pcs[t].node;
    assert s.place[n] == Taken(t);
    RefBound(s, n);
    assert RefInv(s, n);
    HoldersBounds(s.pcs, n);
    assert Holds(s.pcs[t], n);
  }

  lemma DropTwoInv(s: State, t: nat)
    requires Inv(s) && t < |s.pcs| && s.pcs[t].DropTwo?
    ensures Inv(Move(s, t))
  {
    var s', n := Move(s, t), s.pcs[t].node;
    ShapeAfter(s, s', t);
    assert s.place[n] == Taken(t);
    TakenIsNotFlagged(s, t);
    PlusInRange(s.refs[n], -2);
    assert RefInv(s, n);
    HoldersUpdate(s.pcs, t, s'.pcs[t], n);
    KeepChain(s, s', t, n);
    NodeStep(s, s', t, n);
  }

  lemma DropOneInv(s: State, t: nat)
    requires Inv(s) && t < |s.pcs| && s.pcs[t].DropOne?
    ensures Inv(Move(s, t))
  {
    var s', n := Move(s, t), s.pcs[t].node;
    ShapeAfter(s, s', t);
    RefBound(s, n);
    assert RefInv(s, n);
    HoldersBounds(s.pcs, n);
    assert Holds(s.pcs[t], n);
    PlusInRange(s.refs[n], -1);
    HoldersUpdate(s.pcs, t, s'.pcs[t], n);
    KeepChain(s, s', t, n);
    NodeStep(s, s', t, n);
  }

  /** Every atomic operation of every thread keeps the invariant, in any state that satisfies it. */
  lemma StepInv(s: State, e: Event)
    requires Inv(s) && Enabled(s, e)
    ensures Inv(Next(s, e))
  {
    hide PlaceInv, ChainInv, RefInv;
    match e
    case StartAdd(t, node) => StartAddInv(s, t, node);
    case StartGet(t) => QuietStep(s, t, LoadHead);
    case Advance(t) =>
      match s.pcs[t] {
        case RaiseFlag(_) => RaiseFlagInv(s, t);
        case StoreNext(_, _, _) => StoreNextInv(s, t);
        case StoreRefs(_, _, _) => StoreRefsInv(s, t);
        case PushHead(_, _, _) => PushHeadInv(s, t);
        case Unpublish(_, _, _) => UnpublishInv(s, t);
        case TakeRef(_, _) => TakeRefInv(s, t);
        case PopHead(_, _) => PopHeadInv(s, t);
        case DropTwo(_) => DropTwoInv(s, t);
        case DropOne(_, _) => DropOneInv(s, t);
        case ReadHead(_, _) => QuietStep(s, t, Move(s, t).pcs[t]);
        case LoadHead => QuietStep(s, t, Move(s, t).pcs[t]);
        case LoadRefs(_) => QuietStep(s, t, Move(s, t).pcs[t]);
        case LoadNext(_) => QuietStep(s, t, Move(s, t).pcs[t]);
        case Idle => assert false;
      }
  }

  // ----- runs

  /** An event that is not enabled when its turn comes changes nothing. */
  function Step(s: State, e: Event): State
  {
    if Shape(s) && Enabled(s, e) then Next(s, e) else s
  }

  function Play(s: State, es: seq<Event>): State
  {
    Runs.Play(Step, s, es)
  }

  lemma PlayInv(s: State, es: seq<Event>)
    requires Inv(s)
    ensures Inv(Play(s, es))
  {
    forall s, e | Inv(s) ensures Inv(Step(s, e)) {
      if Enabled(s, e) { StepInv(s, e); }
    }
    Runs.PlayKeeps(Step, s => Inv(s), s, es);
  }

  /** Thread `t` is about to hand node `n` out of `try_get`. */
  predicate Handing(s: State, t: nat, n: nat) { t < |s.pcs| && s.pcs[t] == DropTwo(n) }

  /**
   In every interleaving: the list never loops and holds no node twice; a node on the list is in
   nobody's hands; and no node is ever being handed out by two threads, or handed out while a
   client still has it or another thread is adding it.
   */
  lemma FreeListIsSafe(init: State, es: seq<Event>)
    requires Initial(init)
    ensures var s := Play(init, es);
      && Walks(s.head, s.next, s.chain)
      && Distinct(s.chain)
      && (forall t: nat, u: nat, n: nat :: Handing(s, t, n) && Handing(s, u, n) ==> t == u)
      && (forall t: nat, n: nat :: Handing(s, t, n) ==> n !in s.chain)
      && (forall t: nat, n: nat :: Handing(s, t, n) ==> n < |s.place| && s.place[n] == Taken(t))
      && (forall t: nat, n: nat :: Handing(s, t, n) ==> n < |s.refs| && 2 <= s.refs[n] < FLAG)
  {
    InitialInv(init);
    PlayInv(init, es);
    var s := Play(init, es);
    forall t: nat, n: nat | Handing(s, t, n)
      ensures n < |s.place| && s.place[n] == Taken(t) && 2 <= s.refs[n] < FLAG
    {
      TakenIsNotFlagged(s, t);
    }
  }

  /**
   A node leaves the hands of the clients only when one of them passes it to `add`, and comes back
   only when `try_get` returns it.
   */
  lemma OnlyGetReturnsANode(s: State, e: Event, n: nat)
    requires Inv(s) && Enabled(s, e) && n < |s.place|
    ensures var s' := Next(s, e);
      && (s.place[n] == Client && s'.place[n] != Client <==> e == StartAdd(e.t, n))
      && (s.place[n] != Client && s'.place[n] == Client <==> e == Advance(e.t) && Handing(s, e.t, n))
  {
    var t := e.t;
    if e.Advance? && Responsible(s.pcs[t]) {
      assert s.place[s.pcs[t].node] == PlaceBy(s.pcs[t], t);
    }
    if e.Advance? && s.pcs[t].PopHead? && s.head == Some(s.pcs[t].node) {
      assert s.chain[0] == s.pcs[t].node;
    }
    if e.Advance? && s.pcs[t].DropOne? && s.refs[s.pcs[t].node] == FLAG + 1 {
      assert RefInv(s, s.pcs[t].node);
      HoldersBounds(s.pcs, s.pcs[t].node);
    }
  }

  ghost predicate Quiescent(s: State)
  {
    forall t :: 0 <= t < |s.pcs| ==> s.pcs[t] == Idle
  }

  /**
   Once no thread is inside, no added node is lost: each node that no client has is on the list,
   with a reference count of exactly one and no flag, and each node of a client has count zero.
   */
  lemma NothingIsLost(init: State, es: seq<Event>)
    requires Initial(init)
    requires Quiescent(Play(init, es))
    ensures var s := Play(init, es);
      && Walks(s.head, s.next, s.chain)
      && |s.refs| == |s.place|
      && (forall n :: 0 <= n < |s.place| ==> (s.place[n] != Client <==> n in s.chain))
      && (forall n :: 0 <= n < |s.place| ==> s.refs[n] == if n in s.chain then 1 else 0)
  {
    InitialInv(init);
    PlayInv(init, es);
    var s := Play(init, es);
    forall n | 0 <= n < |s.place|
      ensures (s.place[n] != Client <==> n in s.chain) && s.refs[n] == if n in s.chain then 1 else 0
    {
      assert PlaceNamesThread(s, n) && RefInv(s, n);
      HoldersBounds(s.pcs, n);
    }
  }

  /** Thread `t` performs its next `k` atomic operations, as long as it has any left. */
  function Alone(s: State, t: nat, k: nat): State
    requires Shape(s) && t < |s.pcs|
    decreases k
  {
    var s' := Move(s, t);
    if k == 0 || s.pcs[t] == Idle || !Shape(s') then s else Alone(s', t, k - 1)
  }

  /** With a reference to the first node in hand and nobody else inside, the compare-and-swap succeeds. */
  lemma PopAlone(s: State, t: nat, n: nat)
    requires Inv(s) && t < |s.pcs| && s.pcs[t] == LoadNext(n)
    requires s.chain != [] && s.chain[0] == n
    ensures var s' := Alone(s, t, 3);
      && s'.pcs == s.pcs[t := Idle] && s'.chain == s.chain[1..] && s'.place == s.place[n := Client]
  {
    hide PlaceInv, RefInv;
    var s1 := Move(s, t);
    StepInv(s, Advance(t));
    var s2 := Move(s1, t);
    StepInv(s1, Advance(t));
    assert s2.pcs == s.pcs[t := DropTwo(n)] && s2.place == s.place[n := Taken(t)];
    var s3 := Move(s2, t);
    StepInv(s2, Advance(t));
    assert Alone(s, t, 3) == Alone(s1, t, 2) == Alone(s2, t, 1) == Alone(s3, t, 0);
  }

  /** From a quiescent state, `try_get` run alone takes the first node of the list, or finds the list empty. */
  lemma GetAloneSucceeds(s: State, t: nat)
    requires Inv(s) && Quiescent(s) && t < |s.pcs|
    ensures var s' := Alone(Next(s, StartGet(t)), t, 6);
      && Quiescent(s')
      && if s.chain == [] then s' == s
         else s'.chain == s.chain[1..] && s.chain[0] < |s.place| && s'.place == s.place[s.chain[0] := Client]
  {
    var s0 := Next(s, StartGet(t));
    StepInv(s, StartGet(t));
    var s1 := Move(s0, t);
    StepInv(s0, Advance(t));
    if s.chain == [] {
      assert s1.pcs == s.pcs;
      assert Alone(s0, t, 6) == Alone(s1, t, 5) == s1;
    } else {
      var s3 := ReferAlone(s, s1, t);
      PopAlone(s3, t, s.chain[0]);
      assert Alone(s0, t, 6) == Alone(s1, t, 5) == Alone(s3, t, 3);
      assert s3.pcs[t := Idle] == s.pcs;
    }
  }

  /** From the load of the head on, the first node's count is 1, so the reference is taken at once. */
  lemma ReferAlone(s: State, s1: State, t: nat) returns (s3: State)
    requires Inv(s) && Quiescent(s) && t < |s.pcs| && s.chain != []
    requires Inv(s1) && s1 == Goto(s, t, LoadRefs(s.chain[0]))
    ensures Inv(s3) && s3.pcs == s.pcs[t := LoadNext(s.chain[0])] && s3.chain == s.chain && s3.place == s.place
    ensures Alone(s1, t, 5) == Alone(s3, t, 3)
    ensures s.chain[0] < |s.place|
  {
    hide PlaceInv, ChainInv, RefInv;
    var n := s.chain[0];
    FirstAtRest(s);
    var s2 := Move(s1, t);
    StepInv(s1, Advance(t));
    assert s2 == Goto(s1, t, TakeRef(n, 1));
    s3 := Move(s2, t);
    StepInv(s2, Advance(t));
    assert s3.pcs == s2.pcs[t := LoadNext(n)];
    assert Alone(s1, t, 5) == Alone(s2, t, 4) == Alone(s3, t, 3);
  }

  /** From rest, the first node of the list has no transient references. */
  lemma FirstAtRest(s: State)
    requires Inv(s) && Quiescent(s) && s.chain != []
    ensures s.chain[0] < |s.place| && s.chain[0] < |s.refs| && s.refs[s.chain[0]] == 1
  {
    var n := s.chain[0];
    assert s.place[n] == Listed;
    assert RefInv(s, n);
    HoldersBounds(s.pcs, n);
  }

  // ----- what it means that `try_get` returns nothing

  /** Thread `t` begins a call. */
  function Begins(t: nat): (State, Event) -> bool
  {
    (s: State, e: Event) => !e.Advance? && e.t == t && Shape(s) && Enabled(s, e)
  }

  /** The events up to the beginning of the latest call of thread `t`. */
  function Entered(init: State, es: seq<Event>, t: nat): nat
  {
    Runs.Since(Step, init, es, Begins(t))
  }

  ghost predicate EmptySince(init: State, es: seq<Event>, n: nat)
  {
    Runs.Sometime(Step, init, es, n, (s: State) => s.head == None)
  }

  /** A thread in `try_get` that goes on with null for the head loaded that during this call. */
  ghost predicate CallInv(init: State, es: seq<Event>, t: nat)
  {
    var s := Play(init, es);
    t < |s.pcs| && s.pcs[t] != Idle ==>
      var n := Entered(init, es, t);
      && 0 < n && !es[n - 1].Advance? && es[n - 1].t == t
      && InCall(s.pcs[t], es[n - 1].StartGet?)
      && (LoadedNone(s.pcs[t]) ==> EmptySince(init, es, n))
  }

  /** The thread is in `try_get`, or in `add`. */
  predicate InCall(pc: Pc, get: bool)
  {
    match pc
    case Idle => true
    case RaiseFlag(_) => !get
    case ReadHead(_, after) => after.Retry? == get
    case StoreNext(_, _, after) => after.Retry? == get
    case StoreRefs(_, _, after) => after.Retry? == get
    case PushHead(_, _, after) => after.Retry? == get
    case Unpublish(_, _, after) => after.Retry? == get
    case _ => get
  }

  /** `try_get` will go on with null for the head. */
  predicate LoadedNone(pc: Pc)
  {
    match pc
    case ReadHead(_, after) => after == Retry(None)
    case StoreNext(_, _, after) => after == Retry(None)
    case StoreRefs(_, _, after) => after == Retry(None)
    case PushHead(_, _, after) => after == Retry(None)
    case Unpublish(_, _, after) => after == Retry(None)
    case DropOne(_, head) => head == None
    case _ => false
  }

  /** A step of thread `t` itself: it stays in its call, and loads None only from the head. */
  lemma MoveStaysInCall(s: State, t: nat, get: bool)
    requires Shape(s) && t < |s.pcs| && s.pcs[t] != Idle && InCall(s.pcs[t], get)
    ensures var pc, s' := s.pcs[t], Move(s, t);
      && |s'.pcs| == |s.pcs| && InCall(s'.pcs[t], get)
      && (LoadedNone(s'.pcs[t]) ==> LoadedNone(pc) || s.head == None)
      && (get && s'.pcs[t] == Idle && !pc.DropTwo? ==> LoadedNone(pc) || s.head == None)
  {}

  lemma OthersKeep(s: State, e: Event, t: nat)
    requires t < |s.pcs| && (Shape(s) && Enabled(s, e) ==> e.t != t)
    ensures |Step(s, e).pcs| == |s.pcs| && Step(s, e).pcs[t] == s.pcs[t]
  {}

  lemma StepSize(s: State, e: Event)
    ensures |Step(s, e).pcs| == |s.pcs|
  {}

  lemma {:induction false} CallsKept(init: State, es: seq<Event>, t: nat)
    requires Initial(init)
    ensures CallInv(init, es, t)
  {
    hide Next, Shape;
    if es != [] {
      var front, e := es[..|es| - 1], es[|es| - 1];
      var s, n := Play(init, front), Entered(init, front, t);
      CallsKept(init, front, t);
      StepSize(s, e);
      if t < |s.pcs| {
        if !(Shape(s) && Enabled(s, e)) || e.t != t {
          OthersKeep(s, e, t);
        } else if e.Advance? {
          StepsMove(s, t);
          MoveStaysInCall(s, t, es[n - 1].StartGet?);
          if s.head == None { Runs.SometimeNow(Step, init, front, n, (s: State) => s.head == None); }
        } else {
          StepsBegin(s, e);
        }
        if EmptySince(init, front, n) { Runs.SometimeStays(Step, init, es, n, (s: State) => s.head == None); }
      }
    }
  }

  lemma StepsMove(s: State, t: nat)
    requires Shape(s) && Enabled(s, Advance(t))
    ensures Step(s, Advance(t)) == Next(s, Advance(t)) == Move(s, t)
  {}

  lemma StepsBegin(s: State, e: Event)
    requires Shape(s) && Enabled(s, e) && !e.Advance?
    ensures Step(s, e).pcs == s.pcs[e.t := if e.StartGet? then LoadHead else RaiseFlag(e.node)]
  {}

  /**
   In every run, under whatever contention: `try_get` returns without a node only when, at some moment
   within the call, the list was empty.
   */
  lemma EmptyHandedMeansEmpty(init: State, es: seq<Event>, t: nat)
    requires Initial(init) && Shape(Play(init, es)) && Enabled(Play(init, es), Advance(t))
    requires var n := Entered(init, es, t); 0 < n && es[n - 1].StartGet?
    requires var s := Play(init, es); Move(s, t).pcs[t] == Idle && !s.pcs[t].DropTwo?
    ensures Runs.Sometime(Step, init, es, Entered(init, es, t), (s: State) => s.chain == [])
  {
    hide Shape;
    var s, n := Play(init, es), Entered(init, es, t);
    CallsKept(init, es, t);
    MoveStaysInCall(s, t, true);
    if s.head == None { Runs.SometimeNow(Step, init, es, n, (s: State) => s.head == None); }
    var i :| n <= i <= |es| && Runs.Play(Step, init, es[..i]).head == None;
    InitialInv(init);
    PlayInv(init, es[..i]);
    assert (Play(init, es[..i])).chain == [];
  }

  // ----- a thread alone ends its call

  /** A link to a node of the list, or to none. */
  predicate IsListed(s: State, link: Link)
  {
    link.Some? ==> link.value < |s.place| && s.place[link.value] == Listed
  }

  /** What is left of `try_get` with `head` just loaded: little if it is the head, or on the list. */
  function LoopLeft(s: State, head: Link): nat
  {
    if head.None? then 0 else if head == s.head then 5 else if IsListed(s, head) then 10 else 19
  }

  function AfterLeft(s: State, after: After): nat
  {
    if after.Return? then 0 else if IsListed(s, after.head) then 10 else 19
  }

  /** How many operations thread `t` has before it at most, if no other thread moves. */
  function Remaining(s: State, t: nat): nat
    requires Shape(s) && t < |s.pcs|
  {
    match s.pcs[t]
    case Idle => 0
    case RaiseFlag(_) => 5
    case ReadHead(_, after) => AfterLeft(s, after) + 4
    case StoreNext(_, expected, after) => AfterLeft(s, after) + if expected == s.head then 3 else 7
    case StoreRefs(_, expected, after) => AfterLeft(s, after) + if expected == s.head then 2 else 6
    case PushHead(_, expected, after) => AfterLeft(s, after) + if expected == s.head then 1 else 5
    case Unpublish(_, expected, after) => AfterLeft(s, after) + if expected == s.head then 4 else 8
    case LoadHead => 6
    case LoadRefs(node) => LoopLeft(s, Some(node))
    case TakeRef(node, refs) => if s.refs[node] == refs then LoopLeft(s, Some(node)) - 1 else 7
    case LoadNext(node) => LoopLeft(s, Some(node)) - 2
    case PopHead(node, _) => LoopLeft(s, Some(node)) - 3
    case DropTwo(_) => 1
    case DropOne(node, head) =>
      if s.refs[node] == FLAG + 1 then AfterLeft(s, Retry(head)) + 5 else LoopLeft(s, head) + 1
  }

  /** The head is on the list, and the count of a listed node is neither 0 nor that of a deferred one. */
  lemma ListedCounts(s: State, n: nat)
    requires Inv(s) && n < |s.place| && s.place[n] == Listed
    ensures s.refs[n] % FLAG != 0 && s.refs[n] != FLAG + 1
  {
    RefBound(s, n);
    assert RefInv(s, n);
  }

  lemma HeadIsListed(s: State)
    requires Inv(s)
    ensures IsListed(s, s.head)
  {
    if s.head.Some? { assert s.chain[0] in s.chain; }
  }

  lemma PublishFalls(s: State, t: nat)
    requires Shape(s) && t < |s.pcs| && Shape(Move(s, t))
    requires var pc := s.pcs[t];
      pc.RaiseFlag? || pc.ReadHead? || pc.StoreNext? || pc.StoreRefs? || pc.PushHead? || pc.Unpublish?
    requires IsListed(s, s.head)
    requires !s.pcs[t].ReadHead? ==> s.place[s.pcs[t].node] != Listed
    ensures Remaining(Move(s, t), t) < Remaining(s, t)
  {}

  lemma GetFalls(s: State, t: nat)
    requires Shape(s) && t < |s.pcs| && Shape(Move(s, t))
    requires var pc := s.pcs[t];
      pc.LoadHead? || pc.LoadRefs? || pc.TakeRef? || pc.LoadNext? || pc.PopHead? || pc.DropTwo? || pc.DropOne?
    requires IsListed(s, s.head)
    requires forall n :: 0 <= n < |s.place| && s.place[n] == Listed ==> s.refs[n] % FLAG != 0 && s.refs[n] != FLAG + 1
    requires s.pcs[t].DropOne? ==> s.refs[s.pcs[t].node] == FLAG + 1 ==> s.place[s.pcs[t].node] != Listed
    ensures Remaining(Move(s, t), t) < Remaining(s, t)
  {}

  /** From any state that a run can reach, each operation of a thread brings it nearer to the end, if no other moves. */
  lemma RemainingFalls(s: State, t: nat)
    requires Inv(s) && t < |s.pcs| && s.pcs[t] != Idle
    ensures var s' := Step(s, Advance(t));
      Inv(s') && t < |s'.pcs| && Remaining(s', t) < Remaining(s, t) <= 27
  {
    hide Remaining, PlaceInv, ChainInv, RefInv, LocalInv, Move, Step, Next;
    StepInv(s, Advance(t));
    StepsMove(s, t);
    MoveSize(s, t);
    HeadIsListed(s);
    AtMost27(s, t);
    PlacesOfPc(s, t);
    forall n | 0 <= n < |s.place| && s.place[n] == Listed ensures s.refs[n] % FLAG != 0 && s.refs[n] != FLAG + 1 {
      ListedCounts(s, n);
    }
    var pc := s.pcs[t];
    if pc.RaiseFlag? || pc.ReadHead? || pc.StoreNext? || pc.StoreRefs? || pc.PushHead? || pc.Unpublish? {
      PublishFalls(s, t);
    } else {
      GetFalls(s, t);
    }
  }

  lemma MoveSize(s: State, t: nat)
    requires Shape(s) && t < |s.pcs|
    ensures |Move(s, t).pcs| == |s.pcs|
  {}

  lemma AtMost27(s: State, t: nat)
    requires Shape(s) && t < |s.pcs|
    ensures Remaining(s, t) <= 27
  {}

  lemma PlacesOfPc(s: State, t: nat)
    requires Inv(s) && t < |s.pcs|
    ensures Responsible(s.pcs[t]) ==> s.place[s.pcs[t].node] != Listed
  {}

  /**
   Whatever other threads were doing when they stopped, in any state that a run can reach, a thread that runs
   on alone ends its call after at most 27 operations.
   */
  lemma CallsEndAlone(init: State, es: seq<Event>, t: nat)
    requires Initial(init) && t < |init.pcs|
    ensures Runs.Ends(Step, Play(init, es), Advance(t), 27, (s: State) => t < |s.pcs| && s.pcs[t] == Idle)
  {
    hide Inv, Remaining, Step;
    InitialInv(init);
    PlayInv(init, es);
    PlaySize(init, es);
    var s := Play(init, es);
    InvShape(s);
    var inv := (s: State) => Inv(s) && Shape(s) && t < |s.pcs|;
    var left := (s: State) => if Shape(s) && t < |s.pcs| then Remaining(s, t) else 0;
    var done := (s: State) => t < |s.pcs| && s.pcs[t] == Idle;
    forall s | inv(s) && !done(s) ensures inv(Step(s, Advance(t))) && left(Step(s, Advance(t))) < left(s) {
      RemainingFalls(s, t);
      InvShape(Step(s, Advance(t)));
    }
    Runs.FallingEnds(Step, s, Advance(t), inv, left, done);
    AtMost27(s, t);
  }

  lemma InvShape(s: State)
    requires Inv(s)
    ensures Shape(s)
  {}

  lemma {:induction false} PlaySize(init: State, es: seq<Event>)
    ensures |Play(init, es).pcs| == |init.pcs|
  {
    hide Step;
    if es != [] {
      PlaySize(init, es[..|es| - 1]);
      StepSize(Play(init, es[..|es| - 1]), es[|es| - 1]);
    }
  }
}
