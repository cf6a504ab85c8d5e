/**
 One explicit producer with its consumers, all of it concurrent: the ticket protocol of module
 OptimisticDequeue, the look-up of module ConcurrentLookUp, and the blocks with their items and flags.

 Each step is one step of those modules, or moves one item into or out of a block, or raises one flag.
 A dequeue draws tickets, claims indices, looks up the block of the first, moves out the items that lie in
 it, raises their flags, the last one first, and goes on with the next block.

 The producer may start blocks ahead, as `enqueue_bulk` does, and a block's flags are lowered when it is
 started, a little earlier than there; the test of all the flags of a block is one step, since flags only
 go up until the producer lowers them.  Items are numbers.

 `values`, every item in the order in which it was enqueued, and `out`, what consumers have moved out,
 are history variables, as are those of the two modules.
 */
module SubQueue {
  import opened Counting
  import opened CircularIndex
  import opened Wrappers
  import Q = OptimisticDequeue
  import L = ConcurrentLookUp
  import Runs

  datatype Block = Block(cells: seq<Option<nat>>, flags: seq<bool>)

  /**
   A consumer's claim, up to `stop`: the items from `at` on are still in their blocks, and those from
   `from` up to `at` have been moved out; of these, the flags of the last `raised` are up.
   */
  datatype Share = Share(from: nat, at: nat, stop: nat, raised: nat)

  /** A consumer has read its item with this index from a block; it is None if nothing was there. */
  datatype Reading = Reading(index: nat, item: Option<nat>)

  datatype State = State(
    size: nat,                  // BLOCK_SIZE
    q: Q.State,
    l: L.State,
    shares: seq<Share>,
    memory: map<nat, Block>,
    values: seq<nat>,
    out: seq<Reading>)

  datatype Event =
    | Begin(c: nat, request: Q.Request)
    | Count(c: nat)             // consumer c's next operation on the counters
    | Look(c: nat)              // its next load from the block index
    | Take(c: nat)              // it moves an item out
    | Raise(c: nat)             // it raises one of the flags of what it has moved out of this block
    | Turn                      // the producer reuses the block ahead
    | Insert(block: nat)        // or a block from the pool
    | Write
    | StoreFront
    | Grow(front: nat)
    | Construct(x: nat)
    | Publish

  // ----- indices and blocks

  /** The number of the block of an index, and its place in the block. */
  function Number(i: nat, size: nat): nat
    requires size > 0
  {
    i / size
  }

  function Offset(i: nat, size: nat): (o: nat)
    requires size > 0
    ensures o < size
  {
    i % size
  }

  lemma SamePlace(i: nat, j: nat, size: nat)
    requires size > 0 && Number(i, size) == Number(j, size) && Offset(i, size) == Offset(j, size)
    ensures i == j
  {
    assert i == i / size * size + i % size && j == j / size * size + j % size;
  }

  lemma NumberBelow(i: nat, n: nat, size: nat)
    requires size > 0
    ensures Number(i, size) < n <==> i < n * size
    ensures i <= n * size ==> Number(i, size) <= n
  {
    var m := i / size;
    assert i == m * size + i % size;
    if m < n {
      ProductAtLeast(n - m, size);
      assert (n - m) * size == n * size - m * size;
    }
    if m > n {
      ProductAtLeast(m - n, size);
      assert (m - n) * size == m * size - n * size;
    }
  }

  lemma NumberGrows(i: nat, j: nat, size: nat)
    requires size > 0 && i <= j
    ensures Number(i, size) <= Number(j, size)
  {
    NumberBelow(j, Number(j, size) + 1, size);
    NumberBelow(i, Number(j, size) + 1, size);
  }

  lemma PlaceOf(n: nat, o: nat, size: nat)
    requires o < size
    ensures Number(n * size + o, size) == n && Offset(n * size + o, size) == o
  {
    RemainderIsUnique(n * size + o, n, o, size);
  }

  // ----- the machine

  ghost predicate Initial(s: State)
  {
    && s.size > 0 && Q.Initial(s.q) && L.Initial(s.l)
    && |s.shares| == |s.q.pcs| == |s.l.consumers|
    && (forall c :: 0 <= c < |s.shares| ==> s.shares[c] == Share(0, 0, 0, 0))
    && s.memory == map[] && s.values == [] && s.out == []
  }

  predicate Shape(s: State)
  {
    s.size > 0 && |s.shares| == |s.q.pcs| == |s.l.consumers|
  }

  /** The consumer is inside a block: it has been looked up, and is there. */
  predicate InBlock(s: State, c: nat)
  {
    && c < |s.shares| && c < |s.l.consumers| && s.l.consumers[c].Using?
    && s.l.consumers[c].block in s.memory && WholeBlock(s.memory[s.l.consumers[c].block], s.size)
  }

  predicate WholeBlock(b: Block, size: nat)
  {
    |b.cells| == |b.flags| == size
  }

  predicate IsEmpty(b: Block)
  {
    forall o :: 0 <= o < |b.flags| ==> b.flags[o]
  }

  /** The consumer's next item lies in the block that it is inside. */
  predicate MoreHere(share: Share, size: nat)
    requires size > 0
  {
    share.at < share.stop && Number(share.at, size) == Number(share.from, size)
  }

  predicate Enabled(s: State, e: Event)
  {
    && Shape(s)
    && match e
       case Begin(c, request) =>
         Q.Enabled(s.q, Q.Begin(c, request)) && s.shares[c].from == s.shares[c].stop
       case Count(c) => Q.Enabled(s.q, Q.Advance(c))
       case Look(c) => L.Enabled(s.l, L.Advance(c))
       case Take(c) => InBlock(s, c) && MoreHere(s.shares[c], s.size)
       case Raise(c) =>
         && InBlock(s, c) && s.shares[c].from + s.shares[c].raised < s.shares[c].at
         && !MoreHere(s.shares[c], s.size)
         && (s.shares[c].at < s.shares[c].stop ==> L.Enabled(s.l, L.Follow(c)))
         && L.Enabled(s.l, L.Release(c))
       case Turn =>
         && s.l.headers != [] && s.l.producer == L.Ready && CanTurn(s)
       case Insert(block) => L.Enabled(s.l, L.Insert(block)) && !InRing(s, block)
       case Write => L.Enabled(s.l, L.Write)
       case StoreFront => L.Enabled(s.l, L.StoreFront)
       case Grow(front) => L.Enabled(s.l, L.Grow(front))
       case Construct(_) =>
         && s.l.headers != [] && s.l.producer == L.Ready && Number(|s.values|, s.size) < |s.l.address|
         && var a := s.l.address[Number(|s.values|, s.size)]; a in s.memory && WholeBlock(s.memory[a], s.size)
       case Publish => L.Enabled(s.l, L.Publish) && s.q.tail < |s.values|
  }

  /** All the flags of the oldest block are up. */
  predicate CanTurn(s: State)
    requires s.l.headers != []
  {
    var h := L.Current(s.l);
    && h.lo < h.hi && h.lo < |s.l.address|
    && s.l.address[h.lo] in s.memory && IsEmpty(s.memory[s.l.address[h.lo]])
  }

  predicate InRing(s: State, block: nat)
    requires s.l.headers != []
  {
    exists b :: L.Current(s.l).lo <= b < |s.l.address| && s.l.address[b] == block
  }

  /** `reset_empty`. */
  function Lowered(b: Block): Block
  {
    b.(flags := seq(|b.flags|, _ => false))
  }

  function Unused(size: nat): Block
  {
    Block(seq(size, _ => None), seq(size, _ => false))
  }

  function SetCell(b: Block, o: nat, x: Option<nat>): Block
    requires o < |b.cells|
  {
    b.(cells := b.cells[o := x])
  }

  /** One store of `set_many_empty`. */
  function Raised(b: Block, o: nat): Block
    requires o < |b.flags|
  {
    b.(flags := b.flags[o := true])
  }

  /** The index whose flag a consumer raises next; and the claim after that. */
  function NextFlag(share: Share): int
  {
    share.at - share.raised - 1
  }

  function RaisedShare(share: Share): Share
  {
    if NextFlag(share) <= share.from then share.(from := share.at, raised := 0) else share.(raised := share.raised + 1)
  }

  /** Consumer `c` has claimed `won` indices, and starts to look up the block of the first. */
  function Join(s: State, c: nat, won: nat): L.State
    requires Shape(s) && c < |s.l.consumers| && won > 0
  {
    var first, stop := s.q.head, s.q.head + won;
    s.l.(consumers := s.l.consumers[c := L.LoadHeader(Number(first, s.size), Number(stop - 1, s.size))],
         head := Number(stop, s.size))
  }

  function NextOfCount(s: State, c: nat): State
    requires Enabled(s, Count(c))
  {
    var s' := s.(q := Q.Next(s.q, Q.Advance(c)));
    if s.q.pcs[c].ClaimHead? && s.q.pcs[c].won > 0 then
      var won := s.q.pcs[c].won;
      s'.(shares := s.shares[c := Share(s.q.head, s.q.head, s.q.head + won, 0)], l := Join(s, c, won))
    else s'
  }

  function NextOfTake(s: State, c: nat): State
    requires Enabled(s, Take(c))
  {
    var share, a := s.shares[c], s.l.consumers[c].block;
    var o := Offset(share.at, s.size);
    s.(memory := s.memory[a := SetCell(s.memory[a], o, None)],
       out := s.out + [Reading(share.at, s.memory[a].cells[o])],
       shares := s.shares[c := share.(at := share.at + 1)])
  }

  function NextOfRaise(s: State, c: nat): State
    requires Enabled(s, Raise(c))
  {
    var share, a := s.shares[c], s.l.consumers[c].block;
    s.(memory := s.memory[a := Raised(s.memory[a], Offset(NextFlag(share), s.size))],
       shares := s.shares[c := RaisedShare(share)],
       l := if NextFlag(share) > share.from then s.l
            else L.Next(s.l, if share.at < share.stop then L.Follow(c) else L.Release(c)))
  }

  function NextOfTurn(s: State): State
    requires Enabled(s, Turn)
  {
    var a := s.l.address[L.Current(s.l).lo];
    s.(memory := s.memory[a := Lowered(s.memory[a])], l := L.TurnOver(s.l))
  }

  function NextOfConstruct(s: State, x: nat): State
    requires Enabled(s, Construct(x))
  {
    var i := |s.values|;
    var a := s.l.address[Number(i, s.size)];
    s.(memory := s.memory[a := SetCell(s.memory[a], Offset(i, s.size), Some(x))], values := s.values + [x])
  }

  function Next(s: State, e: Event): State
    requires Enabled(s, e)
  {
    match e
    case Begin(c, request) => s.(q := Q.Next(s.q, Q.Begin(c, request)))
    case Count(c) => NextOfCount(s, c)
    case Look(c) => s.(l := L.Next(s.l, L.Advance(c)))
    case Take(c) => NextOfTake(s, c)
    case Raise(c) => NextOfRaise(s, c)
    case Turn => NextOfTurn(s)
    case Insert(block) => s.(memory := s.memory[block := Unused(s.size)], l := L.Next(s.l, L.Insert(block)))
    case Write => s.(l := L.Next(s.l, L.Write))
    case StoreFront => s.(l := L.Next(s.l, L.StoreFront))
    case Grow(front) => s.(l := L.Next(s.l, L.Grow(front)))
    case Construct(x) => NextOfConstruct(s, x)
    case Publish =>
      s.(q := Q.Next(s.q, Q.Publish(|s.values| - s.q.tail)), l := L.Next(s.l, L.Publish))
  }

  // ----- where items are

  /** Consumer `c` has claimed index `i` and not yet moved its item out. */
  predicate Holds(shares: seq<Share>, c: nat, i: nat)
  {
    c < |shares| && shares[c].at <= i < shares[c].stop
  }

  /** Consumer `c` has claimed index `i` and not yet raised its flag. */
  predicate Occupies(shares: seq<Share>, c: nat, i: nat)
  {
    && c < |shares| && shares[c].from <= i < shares[c].stop
    && !(shares[c].at - shares[c].raised <= i < shares[c].at)
  }

  ghost predicate Untaken(s: State, i: nat)
  {
    exists c :: Holds(s.shares, c, i)
  }

  /** The item is in its block. */
  ghost predicate Live(s: State, i: nat)
  {
    i < |s.values| && (s.q.head <= i || Untaken(s, i))
  }

  /** The item's flag is up. */
  ghost predicate Gone(s: State, i: nat)
  {
    i < s.q.head && !exists c :: Occupies(s.shares, c, i)
  }

  /** The place of index `i` holds what it should. */
  ghost predicate CellOk(s: State, i: nat)
    requires s.size > 0
  {
    Number(i, s.size) < |s.l.address| &&
    var a, o := s.l.address[Number(i, s.size)], Offset(i, s.size);
    && a in s.memory && WholeBlock(s.memory[a], s.size)
    && s.memory[a].cells[o] == (if Live(s, i) then Some(s.values[i]) else None)
    && (s.memory[a].flags[o] <==> Gone(s, i))
  }

  /** The blocks of the ring are different ones, and hold what they should. */
  ghost predicate Ring(s: State)
    requires s.size > 0 && s.l.headers != []
  {
    var lo := L.Current(s.l).lo;
    && (forall a, b :: lo <= a < b < |s.l.address| ==> s.l.address[a] != s.l.address[b])
    && (forall i: nat :: lo <= Number(i, s.size) < |s.l.address| ==> CellOk(s, i))
  }

  /** The two machines agree. */
  ghost predicate Agree(s: State)
    requires s.size > 0
  {
    && s.q.head <= s.q.tail <= |s.values| <= |s.l.address| * s.size
    && s.q.tail <= s.l.published * s.size && s.l.head == Number(s.q.head, s.size)
  }

  /** A consumer's claim is behind the head, and its look-up is for the block that it is to empty next. */
  ghost predicate ShareOk(s: State, c: nat)
    requires Shape(s) && c < |s.shares|
  {
    var share, pc := s.shares[c], s.l.consumers[c];
    && share.from <= share.at <= share.stop <= s.q.head
    && (if share.from < share.at then share.from + share.raised < share.at else share.raised == 0)
    && (share.raised > 0 ==> !MoreHere(share, s.size))
    && if share.from == share.stop then pc.Idle?
       else
         && s.q.pcs[c] == Q.Idle && !pc.Idle?
         && pc.b == Number(share.from, s.size) && pc.last == Number(share.stop - 1, s.size)
         && (share.from < share.at ==> pc.Using? && Number(share.at - 1, s.size) == pc.b)
  }

  predicate Apart(a: Share, b: Share)
  {
    a.from == a.stop || b.from == b.stop || a.stop <= b.from || b.stop <= a.from
  }

  ghost predicate Shares(s: State)
    requires Shape(s)
  {
    && (forall c :: 0 <= c < |s.shares| ==> ShareOk(s, c))
    && (forall c, d :: 0 <= c < d < |s.shares| ==> Apart(s.shares[c], s.shares[d]))
  }

  ghost predicate ReadingOk(s: State, r: Reading)
  {
    r.index < s.q.head && r.index < |s.values| && !Untaken(s, r.index) && r.item == Some(s.values[r.index])
  }

  /** What has been read is right, no index twice, and all that has been claimed has been read or will be. */
  ghost predicate Readings(s: State)
  {
    && (forall k :: 0 <= k < |s.out| ==> ReadingOk(s, s.out[k]))
    && (forall j, k :: 0 <= j < k < |s.out| ==> s.out[j].index != s.out[k].index)
    && (forall i: nat :: i < s.q.head ==> Untaken(s, i) || WasRead(s, i))
  }

  ghost predicate WasRead(s: State, i: nat)
  {
    exists k :: 0 <= k < |s.out| && s.out[k].index == i
  }

  ghost predicate Inv(s: State)
  {
    && Shape(s) && Q.Inv(s.q) && L.Inv(s.l)
    && Agree(s) && Shares(s) && Ring(s) && Readings(s)
  }

  lemma InitialInv(s: State)
    requires Initial(s)
    ensures Inv(s)
  {
    Q.InitialInv(s.q);
    L.InitialInv(s.l);
    NumberBelow(0, 0, s.size);
  }

  // ----- steps that move no item

  /** What the invariant of the look-up says of its window. */
  lemma LookFacts(l: L.State)
    requires L.Inv(l)
    ensures l.headers != [] && L.Current(l).size > 0 && |L.Current(l).entries| == L.Current(l).size
    ensures L.Current(l).lo <= l.head <= l.published <= L.Current(l).hi <= |l.address|
    ensures l.producer == L.Ready ==> |l.address| == L.Current(l).hi
    ensures forall c :: 0 <= c < |l.consumers| && !l.consumers[c].Idle? ==>
      L.Current(l).lo <= l.consumers[c].b <= l.consumers[c].last < l.published
    ensures forall c :: 0 <= c < |l.consumers| && l.consumers[c].Using? ==>
      l.consumers[c].block == l.address[l.consumers[c].b]
  {
    assert L.HeaderOk(L.Current(l), l.address);
    forall c | 0 <= c < |l.consumers| && !l.consumers[c].Idle?
      ensures L.Current(l).lo <= l.consumers[c].b <= l.consumers[c].last < l.published
      ensures l.consumers[c].Using? ==> l.consumers[c].block == l.address[l.consumers[c].b]
    {
      assert L.ConsumerOk(l, l.consumers[c]);
    }
  }

  /** The counters or the look-up have moved on; no item has, and no claim has changed. */
  ghost predicate Quiet(s: State, s': State)
  {
    && s' == s.(q := s'.q, l := s'.l) && |s'.q.pcs| == |s.q.pcs| && |s'.l.consumers| == |s.l.consumers|
    && s'.q.head == s.q.head && s'.l.head == s.l.head && s'.l.address == s.l.address
    && s.l.headers != [] && s'.l.headers != [] && L.Current(s'.l).lo == L.Current(s.l).lo
  }

  lemma QuietInv(s: State, s': State)
    requires Inv(s) && Quiet(s, s') && Q.Inv(s'.q) && L.Inv(s'.l)
    requires s'.q.head <= s'.q.tail <= |s.values| && s'.q.tail <= s'.l.published * s.size
    requires forall c :: 0 <= c < |s.shares| ==> ShareOk(s', c)
    ensures Inv(s')
  {
    hide Q.Inv, L.Inv, ShareOk, Number, Offset;
    forall i: nat | L.Current(s'.l).lo <= Number(i, s.size) < |s'.l.address| ensures CellOk(s', i) {
      assert CellOk(s, i);
      assert Live(s', i) == Live(s, i) && Gone(s', i) == Gone(s, i);
    }
    forall k | 0 <= k < |s.out| ensures ReadingOk(s', s.out[k]) { assert ReadingOk(s, s.out[k]); }
    forall i: nat | i < s.q.head ensures Untaken(s', i) || WasRead(s', i) {
      assert Untaken(s, i) || WasRead(s, i);
    }
  }

  /** A share whose consumer's two program counters stay as they are stays right. */
  lemma ShareStays(s: State, s': State, c: nat)
    requires Shape(s) && Shape(s') && c < |s.shares| == |s'.shares| && ShareOk(s, c)
    requires s'.size == s.size && s'.shares[c] == s.shares[c] && s'.q.head >= s.q.head
    requires s'.l.consumers[c] == s.l.consumers[c]
    requires s'.q.pcs[c] == s.q.pcs[c] || s.shares[c].from == s.shares[c].stop
    ensures ShareOk(s', c)
  {}

  lemma BeginInv(s: State, c: nat, request: Q.Request)
    requires Inv(s) && Enabled(s, Begin(c, request))
    ensures Inv(Next(s, Begin(c, request)))
  {
    hide L.Inv, Q.Inv, Ring, Readings, Number, ShareOk;
    var s' := Next(s, Begin(c, request));
    Q.StepInv(s.q, Q.Begin(c, request));
    LookFacts(s.l);
    forall d | 0 <= d < |s.shares| ensures ShareOk(s', d) { ShareStays(s, s', d); }
    QuietInv(s, s');
  }

  /** A consumer that works on the counters has no claim. */
  lemma NoShare(s: State, c: nat)
    requires Shape(s) && Shares(s) && c < |s.shares| && s.q.pcs[c] != Q.Idle
    ensures s.shares[c].from == s.shares[c].at == s.shares[c].stop && s.l.consumers[c].Idle?
  {
    assert ShareOk(s, c);
  }

  lemma CountInv(s: State, c: nat)
    requires Inv(s) && Enabled(s, Count(c)) && !(s.q.pcs[c].ClaimHead? && s.q.pcs[c].won > 0)
    ensures Inv(Next(s, Count(c)))
  {
    hide L.Inv, Q.Inv, Ring, Readings, Number, ShareOk;
    var s' := Next(s, Count(c));
    Q.StepInv(s.q, Q.Advance(c));
    LookFacts(s.l);
    NoShare(s, c);
    assert s'.q.head == s.q.head && s'.q.tail == s.q.tail;
    forall d | 0 <= d < |s.shares| ensures ShareOk(s', d) { ShareStays(s, s', d); }
    QuietInv(s, s');
  }

  /** A step of the look-up by others than consumer `c` itself leaves what matters here. */
  lemma LookEffect(l: L.State, e: L.Event)
    requires L.Inv(l) && L.Enabled(l, e)
    requires e.Advance? || e.Follow? || e.Release? || e.Write? || e.StoreFront? || e.Grow? || e.Publish?
    ensures var l' := L.Next(l, e);
      && l'.headers != [] && l'.address == l.address && l'.head == l.head && L.Current(l').lo == L.Current(l).lo
      && |l'.consumers| == |l.consumers| && l'.published >= l.published
      && (forall d :: 0 <= d < |l.consumers| && !((e.Advance? || e.Follow? || e.Release?) && d == e.c) ==>
            l'.consumers[d] == l.consumers[d])
  {
    LookFacts(l);
  }

  lemma LookInv(s: State, c: nat)
    requires Inv(s) && Enabled(s, Look(c))
    ensures Inv(Next(s, Look(c)))
  {
    hide L.Inv, Q.Inv, Ring, Readings, Number, ShareOk;
    var s' := Next(s, Look(c));
    L.StepInv(s.l, L.Advance(c));
    LookFacts(s.l);
    LookEffect(s.l, L.Advance(c));
    forall d | 0 <= d < |s.shares| ensures ShareOk(s', d) {
      assert ShareOk(s, d);
      if d == c { LookKeepsShare(s, s', c); } else { ShareStays(s, s', d); }
    }
    QuietInv(s, s');
  }

  lemma LookKeepsShare(s: State, s': State, c: nat)
    requires Shape(s) && Enabled(s, Look(c)) && s' == Next(s, Look(c)) && Shape(s') && ShareOk(s, c)
    ensures ShareOk(s', c)
  {
    hide Number;
  }

  lemma ProducerInv(s: State, e: Event)
    requires Inv(s) && Enabled(s, e) && (e.Write? || e.StoreFront? || e.Grow?)
    ensures Inv(Next(s, e))
  {
    hide L.Inv, Q.Inv, Ring, Readings, Number, ShareOk, L.Next;
    var s' := Next(s, e);
    var le := if e.Write? then L.Write else if e.StoreFront? then L.StoreFront else L.Grow(e.front);
    L.StepInv(s.l, le);
    LookFacts(s.l);
    LookEffect(s.l, le);
    MoreRoom(s.q.tail, s.l.published, s'.l.published, s.size);
    forall d | 0 <= d < |s.shares| ensures ShareOk(s', d) { ShareStays(s, s', d); }
    QuietInv(s, s');
  }

  lemma MoreRoom(tail: nat, published: nat, published': nat, size: nat)
    requires tail <= published * size && published <= published'
    ensures tail <= published' * size
  {
    assert (published' - published) * size >= 0;
    assert (published' - published) * size == published' * size - published * size;
  }

  lemma PublishInv(s: State)
    requires Inv(s) && Enabled(s, Publish)
    ensures Inv(Next(s, Publish))
  {
    hide L.Inv, Q.Inv, Ring, Readings, Number, ShareOk;
    var s' := Next(s, Publish);
    Q.StepInv(s.q, Q.Publish(|s.values| - s.q.tail));
    L.StepInv(s.l, L.Publish);
    LookFacts(s.l);
    LookEffect(s.l, L.Publish);
    assert s'.l.published == |s.l.address|;
    forall d | 0 <= d < |s.shares| ensures ShareOk(s', d) { ShareStays(s, s', d); }
    QuietInv(s, s');
  }

  // ----- claiming

  /** What a consumer is about to claim has been published. */
  lemma ClaimIsThere(q: Q.State, c: nat)
    requires Q.Inv(q) && c < |q.pcs| && q.pcs[c].ClaimHead?
    ensures q.head + q.pcs[c].won <= q.tail
  {
    Q.InvIsSafe(q);
    SumBounds(q.pcs, Q.Unclaimed);
    assert Q.Unclaimed(q.pcs[c]) == q.pcs[c].won;
  }

  lemma JoinKeeps(s: State, c: nat, won: nat)
    requires Shape(s) && L.Inv(s.l) && Agree(s) && c < |s.l.consumers| && s.l.consumers[c].Idle?
    requires won > 0 && s.q.head + won <= s.q.tail
    ensures var l' := Join(s, c, won);
      && L.Inv(l') && l'.headers == s.l.headers && l'.address == s.l.address && l'.published == s.l.published
  {
    hide L.Inv;
    var first, stop := s.q.head, s.q.head + won;
    LookFacts(s.l);
    NumberGrows(first, stop - 1, s.size);
    NumberGrows(first, stop, s.size);
    NumberBelow(stop - 1, s.l.published, s.size);
    NumberBelow(stop, s.l.published, s.size);
    var claim, move := L.Claim(c, Number(stop - 1, s.size)), L.MoveHead(Number(stop, s.size));
    L.StepInv(s.l, claim);
    var l1 := L.Next(s.l, claim);
    LookFacts(l1);
    L.StepInv(l1, move);
    assert Join(s, c, won) == L.Next(l1, move);
  }

  /** The claim changes what is behind the head, but not what is in the blocks. */
  lemma ClaimEffect(s: State, s': State, c: nat)
    requires Shape(s) && Shares(s) && c < |s.shares| && s.shares[c].from == s.shares[c].stop
    requires s'.values == s.values && s.q.head <= s'.q.head <= |s.values|
    requires s'.shares == s.shares[c := Share(s.q.head, s.q.head, s'.q.head, 0)]
    ensures forall i: nat :: Live(s', i) == Live(s, i) && Gone(s', i) == Gone(s, i)
    ensures forall i: nat :: Untaken(s', i) <==> Untaken(s, i) || s.q.head <= i < s'.q.head
  {
    hide Number;
    forall i: nat
      ensures Untaken(s', i) <==> Untaken(s, i) || s.q.head <= i < s'.q.head
      ensures Live(s', i) == Live(s, i) && Gone(s', i) == Gone(s, i)
    {
      assert ShareOk(s, c);
      assert Holds(s'.shares, c, i) <==> s.q.head <= i < s'.q.head;
      assert Occupies(s'.shares, c, i) <==> s.q.head <= i < s'.q.head;
      assert forall d :: d != c ==> Holds(s'.shares, d, i) == Holds(s.shares, d, i);
      assert forall d :: d != c ==> Occupies(s'.shares, d, i) == Occupies(s.shares, d, i);
      assert !Holds(s.shares, c, i) && !Occupies(s.shares, c, i);
      OccupiedBelow(s, i);
    }
  }

  lemma OccupiedBelow(s: State, i: nat)
    requires Shape(s) && Shares(s)
    ensures forall d :: Occupies(s.shares, d, i) ==> i < s.q.head
    ensures forall d :: Holds(s.shares, d, i) ==> Occupies(s.shares, d, i)
  {
    forall d | d < |s.shares| && d >= 0
      ensures (Occupies(s.shares, d, i) ==> i < s.q.head) && (Holds(s.shares, d, i) ==> Occupies(s.shares, d, i))
    {
      assert ShareOk(s, d);
    }
  }

  lemma ClaimInv(s: State, c: nat)
    requires Inv(s) && Enabled(s, Count(c)) && s.q.pcs[c].ClaimHead? && s.q.pcs[c].won > 0
    ensures Inv(Next(s, Count(c)))
  {
    hide L.Inv, Q.Inv, Number, ShareOk, CellOk, ReadingOk, Untaken, Live, Gone;
    var s', won := Next(s, Count(c)), s.q.pcs[c].won;
    Q.StepInv(s.q, Q.Advance(c));
    ClaimIsThere(s.q, c);
    NoShare(s, c);
    LookFacts(s.l);
    JoinKeeps(s, c, won);
    ClaimEffect(s, s', c);
    forall d | 0 <= d < |s.shares| ensures ShareOk(s', d) {
      assert ShareOk(s, d);
      if d == c { NewShare(s, c); } else { ShareStays(s, s', d); }
    }
    forall d | 0 <= d < |s.shares| && d != c ensures s.shares[d].stop <= s.q.head { ShareBelow(s, d); }
    forall i: nat | L.Current(s'.l).lo <= Number(i, s.size) < |s'.l.address| ensures CellOk(s', i) {
      assert CellOk(s, i);
      SameCell(s, s', i);
    }
    ClaimReadings(s, s');
  }

  lemma ShareBelow(s: State, d: nat)
    requires Shape(s) && d < |s.shares| && ShareOk(s, d)
    ensures s.shares[d].stop <= s.q.head
  {}

  lemma NewShare(s: State, c: nat)
    requires Enabled(s, Count(c)) && s.q.pcs[c].ClaimHead? && s.q.pcs[c].won > 0
    ensures Shape(Next(s, Count(c))) && ShareOk(Next(s, Count(c)), c)
  {}

  lemma SameCell(s: State, s': State, i: nat)
    requires s.size > 0 && CellOk(s, i) && s'.size == s.size && s'.memory == s.memory && s'.l.address == s.l.address
    requires Live(s', i) == Live(s, i) && Gone(s', i) == Gone(s, i) && s'.values == s.values
    ensures CellOk(s', i)
  {}

  lemma ClaimReadings(s: State, s': State)
    requires Readings(s) && s'.out == s.out && s'.values == s.values && s.q.head <= s'.q.head
    requires forall i: nat :: Untaken(s', i) <==> Untaken(s, i) || s.q.head <= i < s'.q.head
    ensures Readings(s')
  {
    hide Untaken;
    forall k | 0 <= k < |s.out| ensures ReadingOk(s', s.out[k]) { assert ReadingOk(s, s.out[k]); }
    forall i: nat | i < s'.q.head ensures Untaken(s', i) || WasRead(s', i) {
      if i < s.q.head { assert Untaken(s, i) || WasRead(s, i); }
    }
  }

  // ----- moving an item out

  /** No other consumer has to do with an index that one has claimed. */
  lemma OwnIndex(s: State, c: nat, d: nat, i: nat)
    requires Shape(s) && Shares(s) && c != d && Occupies(s.shares, c, i)
    ensures !Occupies(s.shares, d, i) && !Holds(s.shares, d, i)
  {
    if d < |s.shares| {
      assert ShareOk(s, c) && ShareOk(s, d);
      assert Apart(s.shares[if c < d then c else d], s.shares[if c < d then d else c]);
    }
  }

  /** The consumer is inside the block of its next items, and they are there. */
  lemma InsideItsBlock(s: State, c: nat)
    requires Inv(s) && InBlock(s, c)
    ensures var share, pc := s.shares[c], s.l.consumers[c];
      && s.l.headers != [] && share.from <= share.at <= share.stop <= s.q.head <= |s.values|
      && share.from < share.stop && pc.b == Number(share.from, s.size)
      && L.Current(s.l).lo <= pc.b < |s.l.address| && pc.block == s.l.address[pc.b]
  {
    hide L.Inv, Q.Inv, Number;
    LookFacts(s.l);
    assert ShareOk(s, c);
  }

  lemma TakeEffect(s: State, s': State, c: nat)
    requires Shape(s) && Shares(s) && c < |s.shares| && MoreHere(s.shares[c], s.size)
    requires s'.values == s.values && s'.q == s.q
    requires s'.shares == s.shares[c := s.shares[c].(at := s.shares[c].at + 1)]
    ensures forall i: nat :: Untaken(s', i) <==> Untaken(s, i) && i != s.shares[c].at
    ensures forall i: nat :: Live(s', i) == (Live(s, i) && i != s.shares[c].at) && Gone(s', i) == Gone(s, i)
    ensures Untaken(s, s.shares[c].at)
  {
    hide Number;
    var at := s.shares[c].at;
    assert Holds(s.shares, c, at);
    assert ShareOk(s, c);
    forall i: nat
      ensures Untaken(s', i) <==> Untaken(s, i) && i != at
      ensures Gone(s', i) == Gone(s, i)
    {
      assert Holds(s'.shares, c, i) <==> Holds(s.shares, c, i) && i != at;
      assert forall d :: d != c ==> Holds(s'.shares, d, i) == Holds(s.shares, d, i);
      assert forall d :: Occupies(s'.shares, d, i) == Occupies(s.shares, d, i);
      if i == at {
        forall d | d != c ensures !Holds(s.shares, d, i) { OwnIndex(s, c, d, i); }
      }
    }
  }

  /** In the ring, only the place of one index is that of the index. */
  lemma OtherPlace(s: State, i: nat, j: nat)
    requires s.size > 0 && s.l.headers != [] && Ring(s) && i != j
    requires L.Current(s.l).lo <= Number(i, s.size) < |s.l.address|
    requires L.Current(s.l).lo <= Number(j, s.size) < |s.l.address|
    ensures s.l.address[Number(i, s.size)] == s.l.address[Number(j, s.size)] ==>
      Number(i, s.size) == Number(j, s.size) && Offset(i, s.size) != Offset(j, s.size)
  {
    if Number(i, s.size) == Number(j, s.size) && Offset(i, s.size) == Offset(j, s.size) { SamePlace(i, j, s.size); }
  }

  lemma TakeKeepsRing(s: State, c: nat)
    requires Inv(s) && Enabled(s, Take(c))
    ensures s.l.headers != [] && Ring(Next(s, Take(c)))
  {
    hide L.Inv, Q.Inv, Number, Offset, Live, Gone, Untaken;
    var s', share := Next(s, Take(c)), s.shares[c];
    InsideItsBlock(s, c);
    TakeEffect(s, s', c);
    assert CellOk(s, share.at);
    forall i: nat | L.Current(s'.l).lo <= Number(i, s.size) < |s'.l.address| ensures CellOk(s', i) {
      assert CellOk(s, i);
      if i != share.at { OtherPlace(s, i, share.at); }
    }
  }

  lemma HeldIsLive(s: State, c: nat)
    requires Shape(s) && c < |s.shares| && s.shares[c].at < s.shares[c].stop <= s.q.head <= |s.values|
    ensures Live(s, s.shares[c].at)
  {
    assert Holds(s.shares, c, s.shares[c].at);
  }

  /** What is read is the item enqueued with the claimed index. */
  lemma ReadsItsItem(s: State, c: nat)
    requires Inv(s) && Enabled(s, Take(c))
    ensures s.shares[c].at < s.q.head <= |s.values|
    ensures Next(s, Take(c)).out == s.out + [Reading(s.shares[c].at, Some(s.values[s.shares[c].at]))]
  {
    hide L.Inv, Q.Inv, Number, Offset, Live, Gone, Untaken;
    InsideItsBlock(s, c);
    HeldIsLive(s, c);
    assert CellOk(s, s.shares[c].at);
  }

  lemma TakeInv(s: State, c: nat)
    requires Inv(s) && Enabled(s, Take(c))
    ensures Inv(Next(s, Take(c)))
  {
    hide L.Inv, Q.Inv, Number, Offset, ShareOk, Ring, Untaken, Live, Gone;
    var s', share := Next(s, Take(c)), s.shares[c];
    InsideItsBlock(s, c);
    TakeEffect(s, s', c);
    TakeKeepsRing(s, c);
    ReadsItsItem(s, c);
    forall d | 0 <= d < |s.shares| ensures ShareOk(s', d) {
      assert ShareOk(s, d);
      if d == c { TakenShare(s, c); } else { ShareStays(s, s', d); }
    }
    TakeReadings(s, s', share.at);
  }

  lemma TakenShare(s: State, c: nat)
    requires Enabled(s, Take(c)) && ShareOk(s, c)
    ensures Shape(Next(s, Take(c))) && ShareOk(Next(s, Take(c)), c)
  {
    hide Number, Offset;
  }

  lemma TakeReadings(s: State, s': State, at: nat)
    requires Readings(s) && s'.values == s.values && s'.q == s.q && at < s.q.head <= |s.values|
    requires s'.out == s.out + [Reading(at, Some(s.values[at]))] && Untaken(s, at)
    requires forall i: nat :: Untaken(s', i) <==> Untaken(s, i) && i != at
    ensures Readings(s')
  {
    hide Untaken;
    forall k | 0 <= k < |s'.out| ensures ReadingOk(s', s'.out[k]) && (k < |s.out| ==> s'.out[k].index != at) {
      if k < |s.out| { assert ReadingOk(s, s.out[k]); }
    }
    forall i: nat | i < s.q.head ensures Untaken(s', i) || WasRead(s', i) {
      if i == at {
        assert s'.out[|s.out|].index == at;
      } else if WasRead(s, i) {
        var k :| 0 <= k < |s.out| && s.out[k].index == i;
        assert s'.out[k].index == i;
      } else {
        assert Untaken(s, i);
      }
    }
  }

  // ----- raising flags

  lemma OffsetsApart(i: nat, j: nat, size: nat)
    requires size > 0 && Number(i, size) == Number(j, size)
    ensures Offset(i, size) - Offset(j, size) == i - j
  {
    assert i == i / size * size + i % size && j == j / size * size + j % size;
  }

  /** The flag that goes up is that of one index. */
  lemma RaisedFlags(b: Block, r: nat, i: nat, size: nat)
    requires size > 0 && WholeBlock(b, size)
    ensures var b' := Raised(b, Offset(r, size));
      && WholeBlock(b', size) && b'.cells == b.cells
      && (Number(i, size) == Number(r, size) ==>
            (b'.flags[Offset(i, size)] <==> b.flags[Offset(i, size)] || i == r))
  {
    hide Number, Offset;
    if Number(i, size) == Number(r, size) { OffsetsApart(i, r, size); }
  }

  lemma RaiseEffect(s: State, s': State, c: nat)
    requires Shape(s) && Shares(s) && c < |s.shares| && s.shares[c].from + s.shares[c].raised < s.shares[c].at
    requires s'.values == s.values && s'.q == s.q
    requires s'.shares == s.shares[c := RaisedShare(s.shares[c])]
    ensures forall i: nat :: Live(s', i) == Live(s, i) && Untaken(s', i) == Untaken(s, i)
    ensures forall i: nat :: Gone(s', i) <==> Gone(s, i) || i == NextFlag(s.shares[c])
  {
    hide Number;
    var r: nat := NextFlag(s.shares[c]);
    assert ShareOk(s, c);
    assert Occupies(s.shares, c, r);
    forall i: nat
      ensures Live(s', i) == Live(s, i) && Untaken(s', i) == Untaken(s, i)
      ensures Gone(s', i) <==> Gone(s, i) || i == r
    {
      assert forall d :: Holds(s'.shares, d, i) == Holds(s.shares, d, i);
      assert forall d :: d != c ==> Occupies(s'.shares, d, i) == Occupies(s.shares, d, i);
      assert Occupies(s'.shares, c, i) <==> Occupies(s.shares, c, i) && i != r;
      if i == r {
        forall d | d != c ensures !Occupies(s.shares, d, i) { OwnIndex(s, c, d, i); }
      }
    }
  }

  /** Within its block, the claim has been moved out up to `at`. */
  lemma RaiseKeepsShare(s: State, c: nat)
    requires Inv(s) && Enabled(s, Raise(c))
    ensures s.shares[c].from <= NextFlag(s.shares[c]) < s.shares[c].at <= s.shares[c].stop
    ensures Number(NextFlag(s.shares[c]), s.size) == Number(s.shares[c].from, s.size)
    ensures Shape(Next(s, Raise(c))) && ShareOk(Next(s, Raise(c)), c)
  {
    hide L.Inv, Q.Inv, Ring, Readings, Number, Offset;
    var share := s.shares[c];
    assert ShareOk(s, c);
    NumberGrows(share.from, NextFlag(share), s.size);
    NumberGrows(NextFlag(share), share.at - 1, s.size);
    if share.at < share.stop { NextNumber(share.at, s.size); }
  }

  lemma NextNumber(i: nat, size: nat)
    requires size > 0 && i > 0
    ensures Number(i, size) == Number(i - 1, size) || Number(i, size) == Number(i - 1, size) + 1
  {
    hide Number;
    var n := Number(i - 1, size);
    NumberBelow(i - 1, n + 1, size);
    NumberGrows(i - 1, i, size);
    NumberBelow(i, n + 1, size);
  }

  lemma RaiseKeepsRing(s: State, c: nat)
    requires Inv(s) && Enabled(s, Raise(c))
    requires var l' := Next(s, Raise(c)).l;
      l'.headers != [] && l'.address == s.l.address && s.l.headers != [] && L.Current(l').lo == L.Current(s.l).lo
    ensures Ring(Next(s, Raise(c)))
  {
    hide L.Inv, Q.Inv, Readings, Number, Offset, Live, Gone, Untaken, Raised, L.Next, ShareOk;
    var s', share := Next(s, Raise(c)), s.shares[c];
    InsideItsBlock(s, c);
    RaiseKeepsShare(s, c);
    RaiseEffect(s, s', c);
    var b, r: nat := s.memory[s.l.consumers[c].block], NextFlag(share);
    forall i: nat | L.Current(s'.l).lo <= Number(i, s.size) < |s'.l.address| ensures CellOk(s', i) {
      assert CellOk(s, i);
      RaisedFlags(b, r, i, s.size);
      if Number(i, s.size) != Number(r, s.size) { OtherPlace(s, i, r); }
    }
  }

  /** What raising a flag does to the look-up: nothing, unless it is the last flag in the block. */
  lemma RaiseLooks(s: State, c: nat)
    requires Inv(s) && Enabled(s, Raise(c))
    ensures var l' := Next(s, Raise(c)).l;
      && L.Inv(l') && l'.headers != [] && s.l.headers != [] && l'.address == s.l.address && l'.head == s.l.head
      && L.Current(l').lo == L.Current(s.l).lo && l'.published == s.l.published
      && |l'.consumers| == |s.l.consumers|
      && forall d :: 0 <= d < |s.l.consumers| && d != c ==> l'.consumers[d] == s.l.consumers[d]
  {
    hide L.Inv, Q.Inv, Number, Offset, Shares, Ring, Readings, Raised, L.Next;
    var share := s.shares[c];
    LookFacts(s.l);
    if NextFlag(share) <= share.from {
      var le := if share.at < share.stop then L.Follow(c) else L.Release(c);
      L.StepInv(s.l, le);
      LookEffect(s.l, le);
      SamePublished(s.l, le);
    }
  }

  lemma RaiseInv(s: State, c: nat)
    requires Inv(s) && Enabled(s, Raise(c))
    ensures Inv(Next(s, Raise(c)))
  {
    hide L.Inv, Q.Inv, Number, Offset, ShareOk, Ring, Untaken, Live, Gone, Raised, L.Next;
    var s' := Next(s, Raise(c));
    RaiseLooks(s, c);
    InsideItsBlock(s, c);
    RaiseKeepsRing(s, c);
    RaiseKeepsShare(s, c);
    RaiseEffect(s, s', c);
    forall d | 0 <= d < |s.shares| ensures ShareOk(s', d) {
      assert ShareOk(s, d);
      if d != c { ShareStays(s, s', d); }
    }
    SameReadings(s, s');
  }

  lemma SamePublished(l: L.State, e: L.Event)
    requires L.Enabled(l, e) && (e.Follow? || e.Release?)
    ensures L.Next(l, e).published == l.published
  {}

  lemma SameReadings(s: State, s': State)
    requires Readings(s) && s'.out == s.out && s'.q == s.q && s.values <= s'.values
    requires forall i: nat :: Untaken(s', i) == Untaken(s, i)
    ensures Readings(s')
  {
    hide Untaken;
    forall k | 0 <= k < |s.out| ensures ReadingOk(s', s.out[k]) { assert ReadingOk(s, s.out[k]); }
    forall i: nat | i < s.q.head ensures Untaken(s', i) || WasRead(s', i) {
      assert Untaken(s, i) || WasRead(s, i);
    }
  }

  // ----- the producer's steps

  /** When all its flags are up, everything in the oldest block has been claimed and destroyed, and nobody is inside. */
  lemma EmptyIsOldest(s: State)
    requires Inv(s) && Enabled(s, Turn)
    ensures L.Enabled(s.l, L.Turn)
  {
    hide L.Inv, Q.Inv, Number, Offset, Readings, ShareOk;
    var lo := L.Current(s.l).lo;
    LookFacts(s.l);
    PlaceOf(lo, s.size - 1, s.size);
    var last := lo * s.size + (s.size - 1);
    AllGone(s, last);
    NumberBelow(s.q.head, lo + 1, s.size);
    assert (lo + 1) * s.size == last + 1;
    forall c | 0 <= c < |s.l.consumers| ensures !L.Pending(s.l.consumers[c], lo) { NobodyInside(s, c); }
  }

  lemma AllGone(s: State, i: nat)
    requires Inv(s) && Enabled(s, Turn) && Number(i, s.size) == L.Current(s.l).lo
    ensures Gone(s, i)
  {
    hide L.Inv, Q.Inv, Number, Offset, Readings, Shares, Live, Gone;
    assert CellOk(s, i);
  }

  lemma NobodyInside(s: State, c: nat)
    requires Inv(s) && Enabled(s, Turn) && c < |s.l.consumers|
    ensures !L.Pending(s.l.consumers[c], L.Current(s.l).lo)
  {
    hide L.Inv, Q.Inv, Number, Offset, Readings, Ring, Gone;
    assert ShareOk(s, c);
    forall i: nat | Number(i, s.size) == L.Current(s.l).lo ensures Gone(s, i) { AllGone(s, i); }
    StillOccupied(s, c);
  }

  lemma StillOccupied(s: State, c: nat)
    requires Shape(s) && c < |s.shares| && ShareOk(s, c)
    ensures s.shares[c].from < s.shares[c].stop ==> !Gone(s, s.shares[c].from)
  {
    assert s.shares[c].from < s.shares[c].stop ==> Occupies(s.shares, c, s.shares[c].from);
  }

  lemma TurnInv(s: State)
    requires Inv(s) && Enabled(s, Turn)
    ensures Inv(Next(s, Turn))
  {
    hide L.Inv, Q.Inv, Number, Offset, Readings, ShareOk, Ring, IsEmpty, Lowered;
    var s' := Next(s, Turn);
    EmptyIsOldest(s);
    LookFacts(s.l);
    L.StepInv(s.l, L.Turn);
    LookFacts(s'.l);
    TurnKeepsRing(s);
    MoreRoom(|s.values|, |s.l.address|, |s'.l.address|, s.size);
    forall d | 0 <= d < |s.shares| ensures ShareOk(s', d) { assert ShareOk(s, d); ShareStays(s, s', d); }
    SameUntaken(s, s');
    SameReadings(s, s');
  }

  lemma SameUntaken(s: State, s': State)
    requires s'.shares == s.shares && s'.q == s.q
    ensures forall i: nat :: Untaken(s', i) == Untaken(s, i) && Gone(s', i) == Gone(s, i)
    ensures s'.values == s.values ==> forall i: nat :: Live(s', i) == Live(s, i)
  {}

  /** A place in the block that turns over is that of an item that is gone, and later of one yet to come. */
  lemma TurnedCell(s: State, i: nat)
    requires Inv(s) && Enabled(s, Turn) && Number(i, s.size) == |s.l.address|
    ensures CellOk(Next(s, Turn), i)
  {
    hide L.Inv, Q.Inv, Number, Offset, Readings, Shares;
    var s', lo := Next(s, Turn), L.Current(s.l).lo;
    var j := lo * s.size + Offset(i, s.size);
    PlaceOf(lo, Offset(i, s.size), s.size);
    AllGone(s, j);
    NoLongerLive(s, j);
    assert CellOk(s, j);
    YetToCome(s, s', i);
  }

  lemma NoLongerLive(s: State, j: nat)
    requires Shape(s) && Shares(s) && Gone(s, j)
    ensures !Live(s, j)
  {
    hide Number;
    OccupiedBelow(s, j);
  }

  lemma YetToCome(s: State, s': State, i: nat)
    requires s.size > 0 && Agree(s) && Number(i, s.size) >= |s.l.address| && s'.values == s.values && s'.q == s.q
    ensures !Live(s', i) && !Gone(s', i)
  {
    hide Number;
    NumberBelow(i, |s.l.address|, s.size);
  }

  lemma TurnKeepsRing(s: State)
    requires Inv(s) && Enabled(s, Turn)
    ensures s.l.headers != [] && Ring(Next(s, Turn))
  {
    hide L.Inv, Q.Inv, Number, Offset, Readings, Shares, CellOk;
    var s', lo := Next(s, Turn), L.Current(s.l).lo;
    LookFacts(s.l);
    forall i: nat | lo + 1 <= Number(i, s.size) < |s'.l.address| ensures CellOk(s', i) {
      if Number(i, s.size) == |s.l.address| {
        TurnedCell(s, i);
      } else {
        assert CellOk(s, i);
        ElsewhereSame(s, s', i, s.l.address[lo]);
      }
    }
  }

  /** What is not in the block that changes stays as it is. */
  lemma ElsewhereSame(s: State, s': State, i: nat, a: nat)
    requires s.size > 0 && CellOk(s, i) && s'.size == s.size && s'.shares == s.shares && s'.q == s.q
    requires s'.values == s.values && s.l.address <= s'.l.address
    requires s.l.address[Number(i, s.size)] != a && forall b :: b in s.memory && b != a ==>
      b in s'.memory && s'.memory[b] == s.memory[b]
    ensures CellOk(s', i)
  {
    hide Number, Offset;
    SameUntaken(s, s');
  }

  lemma InsertInv(s: State, block: nat)
    requires Inv(s) && Enabled(s, Insert(block))
    ensures Inv(Next(s, Insert(block)))
  {
    hide L.Inv, Q.Inv, Number, Offset, Readings, ShareOk, Ring;
    var s' := Next(s, Insert(block));
    LookFacts(s.l);
    L.StepInv(s.l, L.Insert(block));
    InsertKeepsRing(s, block);
    MoreRoom(|s.values|, |s.l.address|, |s'.l.address|, s.size);
    forall d | 0 <= d < |s.shares| ensures ShareOk(s', d) { assert ShareOk(s, d); ShareStays(s, s', d); }
    SameUntaken(s, s');
    SameReadings(s, s');
  }

  lemma InsertKeepsRing(s: State, block: nat)
    requires Inv(s) && Enabled(s, Insert(block))
    ensures s.l.headers != [] && Ring(Next(s, Insert(block)))
  {
    hide L.Inv, Q.Inv, Number, Offset, Readings, Shares, CellOk;
    var s', lo := Next(s, Insert(block)), L.Current(s.l).lo;
    LookFacts(s.l);
    forall i: nat | lo <= Number(i, s.size) < |s'.l.address| ensures CellOk(s', i) {
      if Number(i, s.size) == |s.l.address| {
        InsertedCell(s, block, i);
      } else {
        assert CellOk(s, i);
        ElsewhereSame(s, s', i, block);
      }
    }
  }

  lemma InsertedCell(s: State, block: nat, i: nat)
    requires Inv(s) && Enabled(s, Insert(block)) && Number(i, s.size) == |s.l.address|
    ensures CellOk(Next(s, Insert(block)), i)
  {
    hide L.Inv, Q.Inv, Number, Offset, Readings, Shares, Ring;
    YetToCome(s, Next(s, Insert(block)), i);
  }

  lemma ConstructEffect(s: State, s': State, x: nat)
    requires s.q.head <= |s.values| && s'.values == s.values + [x] && s'.q == s.q && s'.shares == s.shares
    ensures forall i: nat :: Live(s', i) == (Live(s, i) || i == |s.values|)
    ensures forall i: nat :: Gone(s', i) == Gone(s, i) && Untaken(s', i) == Untaken(s, i)
    ensures forall i: nat :: Live(s, i) ==> i < |s.values|
  {}

  lemma ConstructKeepsRing(s: State, x: nat)
    requires Inv(s) && Enabled(s, Construct(x))
    ensures s.l.headers != [] && Ring(Next(s, Construct(x)))
  {
    hide L.Inv, Q.Inv, Number, Offset, Readings, Shares, Live, Gone, Untaken;
    var s', n := Next(s, Construct(x)), |s.values|;
    LookFacts(s.l);
    ConstructEffect(s, s', x);
    NumberGrows(s.q.head, n, s.size);
    assert CellOk(s, n);
    forall i: nat | L.Current(s'.l).lo <= Number(i, s.size) < |s'.l.address| ensures CellOk(s', i) {
      assert CellOk(s, i);
      if i != n { OtherPlace(s, i, n); }
    }
  }

  lemma ConstructInv(s: State, x: nat)
    requires Inv(s) && Enabled(s, Construct(x))
    ensures Inv(Next(s, Construct(x)))
  {
    hide L.Inv, Q.Inv, Number, Offset, Readings, ShareOk, Ring, Live, Gone, Untaken;
    var s', n := Next(s, Construct(x)), |s.values|;
    ConstructEffect(s, s', x);
    ConstructKeepsRing(s, x);
    NumberBelow(n, |s.l.address|, s.size);
    forall d | 0 <= d < |s.shares| ensures ShareOk(s', d) { assert ShareOk(s, d); ShareStays(s, s', d); }
    SameReadings(s, s');
  }

  /** Every step of every thread keeps the invariant. */
  lemma StepInv(s: State, e: Event)
    requires Inv(s) && Enabled(s, e)
    ensures Inv(Next(s, e))
  {
    hide Inv, Next;
    match e
    case Begin(c, request) => BeginInv(s, c, request);
    case Count(c) =>
      if s.q.pcs[c].ClaimHead? && s.q.pcs[c].won > 0 { ClaimInv(s, c); } else { CountInv(s, c); }
    case Look(c) => LookInv(s, c);
    case Take(c) => TakeInv(s, c);
    case Raise(c) => RaiseInv(s, c);
    case Turn => TurnInv(s);
    case Insert(block) => InsertInv(s, block);
    case Write => ProducerInv(s, e);
    case StoreFront => ProducerInv(s, e);
    case Grow(_) => ProducerInv(s, e);
    case Construct(x) => ConstructInv(s, x);
    case Publish => PublishInv(s);
  }

  // ----- runs

  /** An event that is not enabled when its turn comes changes nothing. */
  function Step(s: State, e: Event): State
  {
    if Enabled(s, e) then Next(s, e) else s
  }

  function Play(s: State, es: seq<Event>): State
  {
    Runs.Play(Step, s, es)
  }

  lemma PlayInv(s: State, es: seq<Event>)
    requires Inv(s)
    ensures Inv(Play(s, es))
  {
    forall s, e | Inv(s) ensures Inv(Step(s, e)) {
      if Enabled(s, e) { StepInv(s, e); }
    }
    Runs.PlayKeeps(Step, s => Inv(s), s, es);
  }

  // ----- what is enqueued

  /** The items that the producer has been given, in order. */
  function Given(init: State, es: seq<Event>): seq<nat>
  {
    if es == [] then []
    else
      var e := es[|es| - 1];
      Given(init, es[..|es| - 1]) + if e.Construct? && Enabled(Play(init, es[..|es| - 1]), e) then [e.x] else []
  }

  lemma {:induction false} ValuesAreGiven(init: State, es: seq<Event>)
    requires Initial(init)
    ensures Play(init, es).values == Given(init, es)
  {
    hide Enabled, Next;
    if es != [] {
      ValuesAreGiven(init, es[..|es| - 1]);
      var s, e := Play(init, es[..|es| - 1]), es[|es| - 1];
      if Enabled(s, e) { ValuesStep(s, e); }
    }
  }

  lemma ValuesStep(s: State, e: Event)
    requires Enabled(s, e)
    ensures Next(s, e).values == s.values + if e.Construct? then [e.x] else []
  {
    hide L.Next, Q.Next;
  }

  /**
   However single and bulk dequeues by any number of consumers interleave with the producer, counters,
   look-ups, items and flags: whatever a consumer reads with a claimed index is the item enqueued with
   that index; no index is read twice; each index behind the head has been read, or is held by exactly
   one consumer, which has yet to read it; and the head never passes what has been published.
   */
  lemma QueueIsFifo(init: State, es: seq<Event>)
    requires Initial(init)
    ensures var s := Play(init, es);
      && s.q.head <= s.q.tail <= |s.values| && s.values == Given(init, es)
      && (forall k :: 0 <= k < |s.out| ==>
            s.out[k].index < |s.values| && s.out[k].item == Some(s.values[s.out[k].index]))
      && (forall j, k :: 0 <= j < k < |s.out| ==> s.out[j].index != s.out[k].index)
      && (forall i: nat :: WasRead(s, i) || Untaken(s, i) <==> i < s.q.head)
      && (forall i: nat :: !(WasRead(s, i) && Untaken(s, i)))
      && (forall c, d, i: nat :: Holds(s.shares, c, i) && Holds(s.shares, d, i) ==> c == d)
  {
    ValuesAreGiven(init, es);
    InitialInv(init);
    PlayInv(init, es);
    InvIsFifo(Play(init, es));
  }

  lemma InvIsFifo(s: State)
    requires Inv(s)
    ensures s.q.head <= s.q.tail <= |s.values|
    ensures forall k :: 0 <= k < |s.out| ==>
      s.out[k].index < |s.values| && s.out[k].item == Some(s.values[s.out[k].index])
    ensures forall j, k :: 0 <= j < k < |s.out| ==> s.out[j].index != s.out[k].index
    ensures forall i: nat :: WasRead(s, i) || Untaken(s, i) <==> i < s.q.head
    ensures forall i: nat :: !(WasRead(s, i) && Untaken(s, i))
    ensures forall c, d, i: nat :: Holds(s.shares, c, i) && Holds(s.shares, d, i) ==> c == d
  {
    hide L.Inv, Q.Inv, Number, Ring;
    forall k | 0 <= k < |s.out| ensures ReadingOk(s, s.out[k]) {}
    forall i: nat ensures Untaken(s, i) ==> i < s.q.head { OccupiedBelow(s, i); }
    forall c, d, i: nat | Holds(s.shares, c, i) && Holds(s.shares, d, i) ensures c == d {
      OccupiedBelow(s, i);
      if c != d { OwnIndex(s, c, d, i); }
    }
  }

  /**
   A consumer with a claim is never stuck, whatever the others do: it can look on, move its next item
   out, or raise flags; and a block that it is inside is there.
   */
  lemma ClaimIsServed(init: State, es: seq<Event>, c: nat)
    requires Initial(init)
    requires var s := Play(init, es); c < |s.shares| && s.shares[c].from < s.shares[c].stop
    ensures var s := Play(init, es); Enabled(s, Look(c)) || Enabled(s, Take(c)) || Enabled(s, Raise(c))
  {
    InitialInv(init);
    PlayInv(init, es);
    Served(Play(init, es), c);
  }

  lemma Served(s: State, c: nat)
    requires Inv(s) && c < |s.shares| && s.shares[c].from < s.shares[c].stop
    ensures Enabled(s, Look(c)) || Enabled(s, Take(c)) || Enabled(s, Raise(c))
  {
    hide Q.Inv, Number, Offset, Readings, Ring, L.Inv;
    var share, pc := s.shares[c], s.l.consumers[c];
    LookFacts(s.l);
    assert ShareOk(s, c);
    LookServed(s.l, c);
    if pc.Using? {
      InsideIsThere(s, c);
      if !MoreHere(share, s.size) {
        NumberGrows(share.at, if share.at < share.stop then share.stop - 1 else share.at, s.size);
        if share.at > 0 { NextNumber(share.at, s.size); }
        NumberGrows(share.from, share.at, s.size);
      }
    }
  }

  lemma LookServed(l: L.State, c: nat)
    requires L.Inv(l) && c < |l.consumers|
    ensures !l.consumers[c].Idle? && !l.consumers[c].Using? ==> L.Enabled(l, L.Advance(c))
    ensures l.consumers[c].Using? ==> L.Enabled(l, L.Release(c))
    ensures l.consumers[c].Using? && l.consumers[c].b < l.consumers[c].last ==> L.Enabled(l, L.Follow(c))
  {
    var pc := l.consumers[c];
    assert L.ConsumerOk(l, pc) && L.HeaderOk(L.Current(l), l.address);
    if !pc.Idle? && !pc.LoadHeader? { assert L.HeaderOk(l.headers[pc.header], l.address); }
  }

  lemma InsideIsThere(s: State, c: nat)
    requires Inv(s) && c < |s.shares| && s.shares[c].from < s.shares[c].stop && s.l.consumers[c].Using?
    ensures InBlock(s, c)
  {
    hide Q.Inv, L.Inv, Number, Offset, Readings, Live, Gone;
    LookFacts(s.l);
    assert ShareOk(s, c);
    assert CellOk(s, s.shares[c].from);
  }

  // ----- claims are served in the end

  /** How many operations the consumer has before it, with the loads, the moves and the flags of its claim. */
  function Remaining(s: State, c: nat): int
    requires c < |s.shares| && c < |s.l.consumers|
  {
    var share := s.shares[c];
    4 * (share.stop - share.at) + 2 * (share.at - share.from - share.raised) + L.Loads(s.l.consumers[c])
  }

  predicate IsOwn(e: Event, c: nat)
  {
    e == Look(c) || e == Take(c) || e == Raise(c)
  }

  /**
   Each operation that a consumer with a claim performs brings it nearer to the end of its claim, and nothing
   that others do throws it back; so, with `ClaimIsServed`, every claim is served after boundedly many of
   its consumer's own operations.
   */
  lemma ClaimEnds(s: State, e: Event, c: nat)
    requires Inv(s) && Enabled(s, e) && c < |s.shares| && s.shares[c].from < s.shares[c].stop
    ensures c < |Next(s, e).shares| && c < |Next(s, e).l.consumers|
    ensures if IsOwn(e, c) then 0 <= Remaining(Next(s, e), c) < Remaining(s, c)
            else Remaining(Next(s, e), c) == Remaining(s, c)
  {
    hide Inv, Next, Remaining;
    StepInv(s, e);
    ShareOfInv(s, c);
    ShareOfInv(Next(s, e), c);
    if IsOwn(e, c) {
      OwnFalls(s, e, c);
    } else {
      OtherStays(s, e, c);
    }
  }

  lemma ShareOfInv(s: State, c: nat)
    requires Inv(s)
    ensures Shape(s)
    ensures c < |s.shares| ==> ShareOk(s, c) && Remaining(s, c) >= 0
  {
    assert c < |s.shares| ==> ShareOk(s, c);
  }

  lemma OwnFalls(s: State, e: Event, c: nat)
    requires Enabled(s, e) && IsOwn(e, c) && ShareOk(s, c)
    ensures c < |Next(s, e).shares| && c < |Next(s, e).l.consumers|
    ensures Remaining(Next(s, e), c) < Remaining(s, c)
  {
    hide Number, Offset, IsEmpty, InRing;
    match e
    case Look(_) => L.LoadsEnd(s.l, L.Advance(c), c);
    case Raise(_) =>
      if NextFlag(s.shares[c]) <= s.shares[c].from {
        L.LoadsEnd(s.l, if s.shares[c].at < s.shares[c].stop then L.Follow(c) else L.Release(c), c);
      }
    case _ =>
  }

  /** The event of the look-up that a step of another consumer, or of the producer, is. */
  lemma OtherStays(s: State, e: Event, c: nat)
    requires Enabled(s, e) && !IsOwn(e, c)
    requires c < |s.shares| && ShareOk(s, c) && s.shares[c].from < s.shares[c].stop
    ensures c < |Next(s, e).shares| && c < |Next(s, e).l.consumers|
    ensures Remaining(Next(s, e), c) == Remaining(s, c)
  {
    hide Number, Offset, IsEmpty, InRing, L.Next;
    var s' := Next(s, e);
    match e
    case Look(d) => L.LoadsEnd(s.l, L.Advance(d), c);
    case Raise(d) =>
      if NextFlag(s.shares[d]) <= s.shares[d].from {
        L.LoadsEnd(s.l, if s.shares[d].at < s.shares[d].stop then L.Follow(d) else L.Release(d), c);
      }
    case Insert(block) => L.LoadsEnd(s.l, L.Insert(block), c);
    case Write => L.LoadsEnd(s.l, L.Write, c);
    case StoreFront => L.LoadsEnd(s.l, L.StoreFront, c);
    case Grow(front) => L.LoadsEnd(s.l, L.Grow(front), c);
    case Publish => L.LoadsEnd(s.l, L.Publish, c);
    case _ =>
  }

  /**
   The producer is never stuck: it completes the entry that it is writing; there is room for the next item in
   the last block; or a new block can be linked in, after the index has been replaced if need be.
   */
  lemma ProducerGoesOn(init: State, es: seq<Event>, x: nat, block: nat)
    requires Initial(init)
    requires var s := Play(init, es); s.l.headers != [] && !InRing(s, block)
    ensures var s := Play(init, es);
      if s.l.producer != L.Ready then Enabled(s, Write)
      else if |s.values| < |s.l.address| * s.size then
        Enabled(s, Construct(x)) && Next(s, Construct(x)).values == s.values + [x]
      else
        var front := if |s.l.address| == 0 then 0 else |s.l.address| - 1;
        || Enabled(s, Insert(block))
        || (Enabled(s, Grow(front)) && Enabled(Next(s, Grow(front)), Insert(block)))
  {
    InitialInv(init);
    PlayInv(init, es);
    var s := Play(init, es);
    LookFacts(s.l);
    if s.l.producer == L.Ready {
      if |s.values| < |s.l.address| * s.size { PlaceIsThere(s); } else { RoomInIndex(s, block); }
    }
  }

  lemma PlaceIsThere(s: State)
    requires Inv(s) && s.l.headers != [] && |s.values| < |s.l.address| * s.size
    ensures Number(|s.values|, s.size) < |s.l.address|
    ensures var a := s.l.address[Number(|s.values|, s.size)]; a in s.memory && WholeBlock(s.memory[a], s.size)
  {
    hide L.Inv, Q.Inv, Shares, Readings, Number, Offset, Live, Gone;
    LookFacts(s.l);
    NumberBelow(|s.values|, |s.l.address|, s.size);
    NumberGrows(s.q.head, |s.values|, s.size);
    assert CellOk(s, |s.values|);
  }

  lemma RoomInIndex(s: State, block: nat)
    requires Inv(s) && s.l.headers != [] && s.l.producer == L.Ready && !InRing(s, block)
    ensures var front := if |s.l.address| == 0 then 0 else |s.l.address| - 1;
      || Enabled(s, Insert(block))
      || (Enabled(s, Grow(front)) && Enabled(Next(s, Grow(front)), Insert(block)))
  {
    hide Q.Inv, Agree, Shares, Ring, Readings;
    LookFacts(s.l);
    assert L.HeaderOk(L.Current(s.l), s.l.address);
  }
}
