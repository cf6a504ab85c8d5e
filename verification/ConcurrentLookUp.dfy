/**
 The look-up of a block by a consumer, load by load, while the producer overwrites, publishes and
 replaces the circular block index.

 Blocks are numbered in the order in which they are started, so that those of the ring always have
 consecutive numbers; the base of block `b` is `b` times the block size, and module CircularIndex shows
 that dividing a difference of bases recovers the difference of numbers.  A consumer claims indices in
 the blocks `b` to `last`, and then loads the header, its front, the base there, and the entry of block
 `b`; in `dequeue_bulk` it goes on to the entries after that one.

 `address`, and in a header `lo`, `hi` and `frontBlock`, are history variables: no load reads them.
 */
module ConcurrentLookUp {
  import opened CircularIndex
  import opened Wrappers
  import Runs

  /** `number` stands for the base. */
  datatype Entry = Entry(number: int, block: nat)

  /** The entries of the blocks `lo .. hi` are complete; block `b` has the slot `b + shift`, around. */
  datatype Header = Header(size: nat, shift: int, entries: seq<Entry>, front: nat, lo: nat, hi: nat, frontBlock: nat)

  datatype Producer =
    | Ready
    | WriteBase(block: nat)     // of the entry for block number hi
    | WriteBlock(block: nat)

  datatype Consumer =
    | Idle
    | LoadHeader(b: nat, last: nat)
    | LoadFront(b: nat, last: nat, header: nat)
    | LoadBase(b: nat, last: nat, header: nat, front: nat)
    | LoadEntry(b: nat, last: nat, header: nat, front: nat, base: int)
    | Using(b: nat, last: nat, header: nat, slot: nat, block: nat)
    | LoadNext(b: nat, last: nat, header: nat, slot: nat)

  datatype State = State(
    headers: seq<Header>,       // all that were ever made; blockIndex points to the last
    published: nat,             // items of blocks below this number can be claimed
    head: nat,                  // all items of blocks below this number have been claimed
    producer: Producer,
    consumers: seq<Consumer>,
    address: seq<nat>)          // of each block, by number

  datatype Event =
    | Turn                      // the block ahead is empty: start to write its new entry
    | Insert(block: nat)        // start to write the entry of a block from the pool
    | Write                     // the next store into the entry
    | StoreFront
    | Publish                   // store the tail index
    | Grow(front: nat)          // a larger index; front is the newest block it exposes
    | MoveHead(to: nat)
    | Claim(c: nat, last: nat)  // consumer c claims indices from the head on, the last one in this block
    | Advance(c: nat)           // the next load of consumer c
    | Follow(c: nat)            // the last flag of its items in the block is raised; on to the next block
    | Release(c: nat)           // the same, in its last block

  function SlotOf(h: Header, b: nat): nat
    requires h.size > 0
  {
    (b + h.shift) % h.size
  }

  function Current(s: State): Header
    requires s.headers != []
  {
    s.headers[|s.headers| - 1]
  }

  function Replace(s: State, h: Header): State
    requires s.headers != []
  {
    s.(headers := s.headers[|s.headers| - 1 := h])
  }

  ghost predicate Initial(s: State)
  {
    && (exists size: nat, entries: seq<Entry> :: FirstHeader(s, size, entries))
    && s.published == s.head == 0 && s.producer == Ready && s.address == []
    && forall c :: 0 <= c < |s.consumers| ==> s.consumers[c] == Idle
  }

  ghost predicate FirstHeader(s: State, size: nat, entries: seq<Entry>)
  {
    size > 0 && |entries| == size && s.headers == [Header(size, 0, entries, 0, 0, 0, 0)]
  }

  /** A consumer is using, or will use, a block. */
  predicate Pending(c: Consumer, b: nat)
  {
    !c.Idle? && c.b == b
  }

  /** All the flags of the oldest block are up. */
  predicate OldestIsEmpty(s: State)
    requires s.headers != []
  {
    Current(s).lo < s.head && forall c :: 0 <= c < |s.consumers| ==> !Pending(s.consumers[c], Current(s).lo)
  }

  predicate Enabled(s: State, e: Event)
  {
    s.headers != [] && Current(s).size > 0 && |Current(s).entries| == Current(s).size &&
    var h := Current(s);
    match e
    case Turn => s.producer == Ready && h.lo < h.hi && h.lo < |s.address| && OldestIsEmpty(s)
    case Insert(_) => s.producer == Ready && h.hi - h.lo < h.size
    case Write => s.producer != Ready
    case StoreFront => s.producer == Ready && h.lo < h.hi
    case Publish => s.producer == Ready && h.lo < h.hi && h.frontBlock == h.hi - 1
    case Grow(front) => s.producer == Ready && s.published <= front + 1 && (front < h.hi || h.hi == 0)
    case MoveHead(to) => s.head <= to <= s.published
    case Claim(c, last) => c < |s.consumers| && s.consumers[c] == Idle && s.head <= last < s.published
    case Advance(c) =>
      && c < |s.consumers| && !s.consumers[c].Idle? && !s.consumers[c].Using?
      && (s.consumers[c].LoadHeader? || HeaderThere(s, s.consumers[c].header))
      && (s.consumers[c].LoadBase? ==> s.consumers[c].front < s.headers[s.consumers[c].header].size)
      && (s.consumers[c].LoadNext? ==> s.consumers[c].slot < s.headers[s.consumers[c].header].size)
    case Follow(c) =>
      && c < |s.consumers| && s.consumers[c].Using? && s.consumers[c].b < s.consumers[c].last
      && HeaderThere(s, s.consumers[c].header)
    case Release(c) => c < |s.consumers| && s.consumers[c].Using?
  }

  predicate HeaderThere(s: State, k: nat)
  {
    k < |s.headers| && s.headers[k].size > 0 && |s.headers[k].entries| == s.headers[k].size
  }

  /** The entries of the blocks in the ring, oldest first, at the start of an index twice the size. */
  function Larger(h: Header, front: nat): Header
    requires h.size > 0 && |h.entries| == h.size
  {
    Header(2 * h.size, 0 - h.lo,
           seq(2 * h.size, k requires 0 <= k < 2 * h.size =>
             if k < h.hi - h.lo then h.entries[SlotOf(h, h.lo + k)] else Entry(0, 0)),
           (front - h.lo) % (2 * h.size), h.lo, h.hi, front)
  }

  function SetConsumer(s: State, c: nat, pc: Consumer): State
    requires c < |s.consumers|
  {
    s.(consumers := s.consumers[c := pc])
  }

  /** The oldest block becomes the newest. */
  function TurnOver(s: State): State
    requires s.headers != [] && Current(s).lo < |s.address|
  {
    var h := Current(s);
    Replace(s, h.(lo := h.lo + 1)).(producer := WriteBase(s.address[h.lo]), address := s.address + [s.address[h.lo]])
  }

  function Next(s: State, e: Event): State
    requires Enabled(s, e)
  {
    var h := Current(s);
    match e
    case Turn => TurnOver(s)
    case Insert(block) => s.(producer := WriteBase(block), address := s.address + [block])
    case Write =>
      var slot := SlotOf(h, h.hi);
      if s.producer.WriteBase? then
        Replace(s, h.(entries := h.entries[slot := h.entries[slot].(number := h.hi)])).(
          producer := WriteBlock(s.producer.block))
      else
        Replace(s, h.(entries := h.entries[slot := h.entries[slot].(block := s.producer.block)], hi := h.hi + 1)).(
          producer := Ready)
    case StoreFront => Replace(s, h.(front := SlotOf(h, h.hi - 1), frontBlock := h.hi - 1))
    case Publish => s.(published := h.hi)
    case Grow(front) => s.(headers := s.headers + [Larger(h, front)])
    case MoveHead(to) => s.(head := to)
    case Claim(c, last) => SetConsumer(s, c, LoadHeader(s.head, last))
    case Advance(c) => SetConsumer(s, c, Load(s, s.consumers[c]))
    case Follow(c) => SetConsumer(s, c, NextBlock(s, s.consumers[c]))
    case Release(c) => SetConsumer(s, c, Idle)
  }

  /** The next load of a consumer. */
  function Load(s: State, pc: Consumer): Consumer
    requires s.headers != [] && !pc.Idle? && !pc.Using?
    requires pc.LoadHeader? || HeaderThere(s, pc.header)
    requires pc.LoadBase? ==> pc.front < s.headers[pc.header].size
    requires pc.LoadNext? ==> pc.slot < s.headers[pc.header].size
  {
    match pc
    case LoadHeader(b, last) => LoadFront(b, last, |s.headers| - 1)
    case LoadFront(b, last, k) => LoadBase(b, last, k, s.headers[k].front)
    case LoadBase(b, last, k, front) => LoadEntry(b, last, k, front, s.headers[k].entries[front].number)
    case LoadEntry(b, last, k, front, base) =>
      var h := s.headers[k];
      var slot := (front + (b - base)) % h.size;
      Using(b, last, k, slot, h.entries[slot].block)
    case LoadNext(b, last, k, slot) => Using(b, last, k, slot, s.headers[k].entries[slot].block)
  }

  /** A bulk dequeue goes on to the next entry of the header that it has loaded. */
  function NextBlock(s: State, pc: Consumer): Consumer
    requires pc.Using? && HeaderThere(s, pc.header)
  {
    LoadNext(pc.b + 1, pc.last, pc.header, (pc.slot + 1) % s.headers[pc.header].size)
  }

  // ----- the invariant

  /** A header lists the blocks of its window. */
  ghost predicate HeaderOk(h: Header, address: seq<nat>)
  {
    && h.size > 0 && |h.entries| == h.size && h.lo <= h.hi <= h.lo + h.size && h.hi <= |address|
    && (forall b: nat :: h.lo <= b < h.hi ==> Listed(h, b, address))
  }

  ghost predicate Listed(h: Header, b: nat, address: seq<nat>)
    requires h.size > 0 && |h.entries| == h.size
  {
    b < |address| && h.entries[SlotOf(h, b)] == Entry(b, address[b])
  }

  /** What the producer is writing is not in the window, and will be the next block. */
  ghost predicate ProducerOk(s: State)
    requires s.headers != []
  {
    var h := Current(s);
    && (s.producer == Ready ==> |s.address| == h.hi)
    && (s.producer != Ready ==>
          |s.address| == h.hi + 1 && s.address[h.hi] == s.producer.block && h.hi < h.lo + h.size)
    && (s.producer.WriteBlock? ==> h.size > 0 && |h.entries| == h.size && h.entries[SlotOf(h, h.hi)].number == h.hi)
    && h.size > 0 && h.front == SlotOf(h, h.frontBlock)
    && (s.published > 0 ==> s.published - 1 <= h.frontBlock < h.hi)
    && s.published <= h.hi && s.head <= s.published && h.lo <= s.head
  }

  /** The blocks `b` to `last` are in the window of the header, and so is the front, which is not older. */
  ghost predicate InWindow(h: Header, b: nat, last: nat)
  {
    h.size > 0 && h.lo <= b <= last <= h.frontBlock < h.hi && h.front == SlotOf(h, h.frontBlock)
  }

  ghost predicate ConsumerOk(s: State, pc: Consumer)
    requires s.headers != []
  {
    (!pc.Idle? ==> Current(s).lo <= pc.b <= pc.last < s.published && pc.last < |s.address|)
    && match pc
       case Idle => true
       case LoadHeader(_, _) => true
       case LoadFront(b, last, k) => k < |s.headers| && InWindow(s.headers[k], b, last)
       case LoadBase(b, last, k, front) =>
         k < |s.headers| && InWindow(s.headers[k], b, last) && exists g: nat :: FrontIs(s.headers[k], b, front, g)
       case LoadEntry(b, last, k, front, base) =>
         k < |s.headers| && InWindow(s.headers[k], b, last) && base >= 0 && FrontIs(s.headers[k], b, front, base)
       case Using(b, last, k, slot, block) =>
         && k < |s.headers| && InWindow(s.headers[k], b, last)
         && slot == SlotOf(s.headers[k], b) && block == s.address[b]
       case LoadNext(b, last, k, slot) =>
         k < |s.headers| && InWindow(s.headers[k], b, last) && slot == SlotOf(s.headers[k], b)
  }

  /** The front loaded is the slot of block `g`, which is in the window and not older than `b`. */
  ghost predicate FrontIs(h: Header, b: nat, front: nat, g: nat)
  {
    h.size > 0 && b <= g < h.hi && front == SlotOf(h, g)
  }

  ghost predicate Inv(s: State)
  {
    && s.headers != []
    && (forall k :: 0 <= k < |s.headers| ==> HeaderOk(s.headers[k], s.address))
    && ProducerOk(s)
    && (forall c :: 0 <= c < |s.consumers| ==> ConsumerOk(s, s.consumers[c]))
  }

  lemma InitialInv(s: State)
    requires Initial(s)
    ensures Inv(s)
  {}

  // ----- a consumer's loads

  /** From any front in the window, the slot of a block in the window is found. */
  lemma SlotFromFront(h: Header, b: nat, g: nat)
    requires h.size > 0
    ensures (SlotOf(h, g) + (b - g)) % h.size == SlotOf(h, b)
  {
    Shifted(g + h.shift, b - g, b + h.shift, h.size);
  }

  lemma Shifted(p: int, d: int, q: int, m: int)
    requires m > 0 && q == p + d
    ensures (p % m + d) % m == q % m
  {
    RemainderOfSum(p, d, m);
  }

  lemma LoadKeeps(s: State, c: nat)
    requires Inv(s) && Enabled(s, Advance(c))
    ensures ConsumerOk(s, Load(s, s.consumers[c]))
  {
    var pc := s.consumers[c];
    assert ConsumerOk(s, pc);
    match pc
    case LoadHeader(_, _) => assert HeaderOk(Current(s), s.address);
    case LoadFront(b, _, k) => assert FrontIs(s.headers[k], b, s.headers[k].front, s.headers[k].frontBlock);
    case LoadBase(b, _, k, front) =>
      var h := s.headers[k];
      var g: nat :| FrontIs(h, b, front, g);
      assert HeaderOk(h, s.address) && Listed(h, g, s.address);
    case LoadEntry(b, _, k, front, base) =>
      var h := s.headers[k];
      SlotFromFront(h, b, base);
      assert HeaderOk(h, s.address) && Listed(h, b, s.address);
    case LoadNext(b, _, k, _) =>
      var h := s.headers[k];
      assert HeaderOk(h, s.address) && Listed(h, b, s.address);
  }

  lemma FollowKeeps(s: State, c: nat)
    requires Inv(s) && Enabled(s, Follow(c))
    ensures ConsumerOk(s, NextBlock(s, s.consumers[c]))
  {
    var pc := s.consumers[c];
    assert ConsumerOk(s, pc);
    var h := s.headers[pc.header];
    SlotFromFront(h, pc.b + 1, pc.b);
  }

  // ----- the producer's steps

  /** Other blocks of the window have other slots than the one after it. */
  lemma OtherSlots(h: Header, b: nat)
    requires h.size > 0 && h.lo <= b < h.hi && h.hi < h.lo + h.size
    ensures SlotOf(h, b) != SlotOf(h, h.hi)
  {
    SlotsDiffer(b + h.shift, h.hi + h.shift, h.size);
  }

  /** A header does not mind that more blocks have addresses. */
  lemma MoreAddresses(h: Header, address: seq<nat>, more: seq<nat>)
    requires HeaderOk(h, address)
    ensures HeaderOk(h, address + more)
  {
    forall b: nat | h.lo <= b < h.hi ensures Listed(h, b, address + more) {
      assert Listed(h, b, address);
    }
  }

  /** What a step of the producer must keep of its header for the consumers that use it. */
  ghost predicate Serves(h: Header, h': Header)
  {
    && h.size > 0 && h'.size == h.size && h'.shift == h.shift
    && h'.lo >= h.lo && h'.hi >= h.hi && h'.frontBlock >= h.frontBlock
    && (h.front == SlotOf(h, h.frontBlock) && h.lo <= h.frontBlock < h.hi ==>
          h'.front == SlotOf(h', h'.frontBlock) && h'.frontBlock < h'.hi)
  }

  lemma ServesConsumer(s: State, s': State, pc: Consumer)
    requires s.headers != [] && |s'.headers| == |s.headers| && ConsumerOk(s, pc)
    requires forall k :: 0 <= k < |s.headers| - 1 ==> s'.headers[k] == s.headers[k]
    requires Current(s).size > 0 && Serves(Current(s), Current(s'))
    requires s.published <= s'.published && s.address <= s'.address
    requires !pc.Idle? ==> Current(s').lo <= pc.b
    ensures ConsumerOk(s', pc)
  {
    hide SlotOf, Serves, InWindow, FrontIs;
    if !pc.Idle? && !pc.LoadHeader? {
      HeaderServes(s, s', pc.header, pc.b, pc.last);
      if pc.LoadBase? {
        var g: nat :| FrontIs(s.headers[pc.header], pc.b, pc.front, g);
        assert FrontIs(s'.headers[pc.header], pc.b, pc.front, g);
      }
    }
  }

  lemma HeaderServes(s: State, s': State, k: nat, b: nat, last: nat)
    requires s.headers != [] && |s'.headers| == |s.headers| && k < |s.headers|
    requires forall k :: 0 <= k < |s.headers| - 1 ==> s'.headers[k] == s.headers[k]
    requires Serves(Current(s), Current(s')) && Current(s').lo <= b && InWindow(s.headers[k], b, last)
    ensures InWindow(s'.headers[k], b, last) && SlotOf(s'.headers[k], b) == SlotOf(s.headers[k], b)
    ensures forall front: nat, g: nat :: FrontIs(s.headers[k], b, front, g) ==> FrontIs(s'.headers[k], b, front, g)
  {}

  lemma TurnInv(s: State)
    requires Inv(s) && Enabled(s, Turn)
    ensures Inv(Next(s, Turn))
  {
    var s', h := Next(s, Turn), Current(s);
    forall k | 0 <= k < |s'.headers| ensures HeaderOk(s'.headers[k], s'.address) {
      MoreAddresses(s.headers[k], s.address, [s.address[h.lo]]);
      if k == |s.headers| - 1 {
        forall b: nat | h.lo + 1 <= b < h.hi ensures Listed(s'.headers[k], b, s'.address) {
          assert Listed(h, b, s'.address);
        }
      }
    }
    forall c | 0 <= c < |s'.consumers| ensures ConsumerOk(s', s'.consumers[c]) {
      assert ConsumerOk(s, s.consumers[c]);
      assert !Pending(s.consumers[c], h.lo);
      ServesConsumer(s, s', s.consumers[c]);
    }
  }

  lemma InsertInv(s: State, block: nat)
    requires Inv(s) && Enabled(s, Insert(block))
    ensures Inv(Next(s, Insert(block)))
  {
    var s' := Next(s, Insert(block));
    forall k | 0 <= k < |s'.headers| ensures HeaderOk(s'.headers[k], s'.address) {
      MoreAddresses(s.headers[k], s.address, [block]);
    }
    forall c | 0 <= c < |s'.consumers| ensures ConsumerOk(s', s'.consumers[c]) {
      assert ConsumerOk(s, s.consumers[c]);
      ServesConsumer(s, s', s.consumers[c]);
    }
  }

  lemma WriteInv(s: State)
    requires Inv(s) && Enabled(s, Write)
    ensures Inv(Next(s, Write))
  {
    var s', h, h' := Next(s, Write), Current(s), Current(Next(s, Write));
    assert HeaderOk(h, s.address);
    forall b: nat | h.lo <= b < h'.hi ensures Listed(h', b, s'.address) {
      if b < h.hi {
        assert Listed(h, b, s.address);
        OtherSlots(h, b);
      }
    }
    assert forall k :: 0 <= k < |s'.headers| - 1 ==> s'.headers[k] == s.headers[k];
    forall c | 0 <= c < |s'.consumers| ensures ConsumerOk(s', s'.consumers[c]) {
      assert ConsumerOk(s, s.consumers[c]);
      ServesConsumer(s, s', s.consumers[c]);
    }
  }

  lemma StoreFrontInv(s: State)
    requires Inv(s) && Enabled(s, StoreFront)
    ensures Inv(Next(s, StoreFront))
  {
    hide ConsumerOk, Listed;
    var s', h, h' := Next(s, StoreFront), Current(s), Current(Next(s, StoreFront));
    assert HeaderOk(h, s.address);
    forall b: nat | h'.lo <= b < h'.hi ensures Listed(h', b, s'.address) { SameListed(h, h', b, s.address); }
    forall c | 0 <= c < |s'.consumers| ensures ConsumerOk(s', s'.consumers[c]) {
      assert ConsumerOk(s, s.consumers[c]);
      NotBefore(s, s.consumers[c]);
      if s.consumers[c].Idle? { IdleIsOk(s'); } else { ServesConsumer(s, s', s.consumers[c]); }
    }
  }

  lemma IdleIsOk(s: State)
    requires s.headers != []
    ensures ConsumerOk(s, Idle)
  {}

  lemma SameListed(h: Header, h': Header, b: nat, address: seq<nat>)
    requires h.size > 0 && |h.entries| == h.size && Listed(h, b, address)
    requires h'.size == h.size && h'.shift == h.shift && h'.entries == h.entries
    ensures Listed(h', b, address)
  {}

  /** What a consumer looks for has not left the window. */
  lemma NotBefore(s: State, pc: Consumer)
    requires s.headers != [] && ConsumerOk(s, pc)
    ensures !pc.Idle? ==> Current(s).lo <= pc.b && s.published > 0
  {}

  lemma PublishInv(s: State)
    requires Inv(s) && Enabled(s, Publish)
    ensures Inv(Next(s, Publish))
  {
    var s' := Next(s, Publish);
    forall c | 0 <= c < |s'.consumers| ensures ConsumerOk(s', s'.consumers[c]) {
      assert ConsumerOk(s, s.consumers[c]);
      if !s.consumers[c].Idle? { ServesConsumer(s, s', s.consumers[c]); }
    }
  }

  /** The larger index lists the same blocks. */
  lemma LargerLists(h: Header, front: nat, address: seq<nat>)
    requires HeaderOk(h, address)
    ensures HeaderOk(Larger(h, front), address)
  {
    var h' := Larger(h, front);
    forall b: nat | h.lo <= b < h.hi ensures Listed(h', b, address) {
      assert Listed(h, b, address);
      RemainderIsUnique(b - h.lo, 0, b - h.lo, 2 * h.size);
    }
  }

  /** A larger index lists the same blocks, and consumers keep to the one they have loaded. */
  lemma GrowInv(s: State, front: nat)
    requires Inv(s) && Enabled(s, Grow(front))
    ensures Inv(Next(s, Grow(front)))
  {
    hide Larger, HeaderOk;
    var s', h := Next(s, Grow(front)), Current(s);
    assert HeaderOk(h, s.address);
    LargerLists(h, front, s.address);
    LargerFits(s, front);
    assert forall k :: 0 <= k < |s.headers| ==> s'.headers[k] == s.headers[k];
    forall c | 0 <= c < |s'.consumers| ensures ConsumerOk(s', s'.consumers[c]) {
      GrowKeepsConsumer(s, front, s.consumers[c]);
    }
  }

  lemma LargerFits(s: State, front: nat)
    requires s.headers != [] && ProducerOk(s) && Enabled(s, Grow(front))
    ensures ProducerOk(s.(headers := s.headers + [Larger(Current(s), front)]))
  {}

  lemma GrowKeepsConsumer(s: State, front: nat, pc: Consumer)
    requires s.headers != [] && Current(s).size > 0 && |Current(s).entries| == Current(s).size && ConsumerOk(s, pc)
    ensures ConsumerOk(s.(headers := s.headers + [Larger(Current(s), front)]), pc)
  {
    hide SlotOf;
    var s' := s.(headers := s.headers + [Larger(Current(s), front)]);
    assert forall k :: 0 <= k < |s.headers| ==> s'.headers[k] == s.headers[k];
  }

  /** A consumer's step changes that consumer only; moving the head, none. */
  lemma ConsumerInv(s: State, e: Event)
    requires Inv(s) && Enabled(s, e) && (e.Claim? || e.Advance? || e.Follow? || e.Release? || e.MoveHead?)
    ensures Inv(Next(s, e))
  {
    hide ConsumerOk, HeaderOk, Load, NextBlock;
    var s' := Next(s, e);
    if !e.MoveHead? { ConsumerMoves(s, e); }
    forall c | 0 <= c < |s'.consumers| ensures ConsumerOk(s', s'.consumers[c]) {
      assert ConsumerOk(s, s.consumers[c]);
      SameForConsumer(s, s', s'.consumers[c]);
    }
  }

  lemma ConsumerMoves(s: State, e: Event)
    requires Inv(s) && Enabled(s, e) && (e.Claim? || e.Advance? || e.Follow? || e.Release?)
    ensures Next(s, e) == SetConsumer(s, e.c, Next(s, e).consumers[e.c]) && ConsumerOk(s, Next(s, e).consumers[e.c])
  {
    hide HeaderOk, Load, NextBlock;
    match e
    case Claim(_, _) => ClaimIsOk(s);
    case Advance(c) => LoadKeeps(s, c);
    case Follow(c) => FollowKeeps(s, c);
    case Release(_) =>
  }

  lemma ClaimIsOk(s: State)
    requires Inv(s)
    ensures Current(s).lo <= s.head && s.published <= |s.address|
  {
    assert HeaderOk(Current(s), s.address);
  }

  lemma SameForConsumer(s: State, s': State, pc: Consumer)
    requires s.headers != [] && s'.headers == s.headers && s'.published == s.published && s'.address == s.address
    ensures ConsumerOk(s, pc) ==> ConsumerOk(s', pc)
  {}

  lemma StepInv(s: State, e: Event)
    requires Inv(s) && Enabled(s, e)
    ensures Inv(Next(s, e))
  {
    hide Inv, Next;
    match e
    case Turn => TurnInv(s);
    case Insert(block) => InsertInv(s, block);
    case Write => WriteInv(s);
    case StoreFront => StoreFrontInv(s);
    case Publish => PublishInv(s);
    case Grow(front) => GrowInv(s, front);
    case MoveHead(_) => ConsumerInv(s, e);
    case Claim(_, _) => ConsumerInv(s, e);
    case Advance(_) => ConsumerInv(s, e);
    case Follow(_) => ConsumerInv(s, e);
    case Release(_) => ConsumerInv(s, e);
  }

  // ----- runs

  /** An event that is not enabled when its turn comes changes nothing. */
  function Step(s: State, e: Event): State
  {
    if Enabled(s, e) then Next(s, e) else s
  }

  function Play(s: State, es: seq<Event>): State
  {
    Runs.Play(Step, s, es)
  }

  lemma PlayInv(s: State, es: seq<Event>)
    requires Inv(s)
    ensures Inv(Play(s, es))
  {
    forall s, e | Inv(s) ensures Inv(Step(s, e)) {
      if Enabled(s, e) { StepInv(s, e); }
    }
    Runs.PlayKeeps(Step, s => Inv(s), s, es);
  }

  /** The block that consumer `c` has claimed in, or gone on to, and the last of its claim. */
  function Target(init: State, es: seq<Event>, c: nat): Option<(nat, nat)>
  {
    if es == [] then None
    else
      var s, e, before := Play(init, es[..|es| - 1]), es[|es| - 1], Target(init, es[..|es| - 1], c);
      if !Enabled(s, e) then before
      else
        match e
        case Claim(d, last) => if d == c then Some((s.head, last)) else before
        case Follow(d) => if d == c && before.Some? then Some((before.value.0 + 1, before.value.1)) else before
        case Release(d) => if d == c then None else before
        case _ => before
  }

  lemma {:induction false} TargetKept(init: State, es: seq<Event>, c: nat)
    requires Initial(init)
    ensures var s := Play(init, es);
      c < |s.consumers| ==>
        Target(init, es, c) == if s.consumers[c].Idle? then None else Some((s.consumers[c].b, s.consumers[c].last))
  {
    hide Next;
    if es != [] {
      var s, e := Play(init, es[..|es| - 1]), es[|es| - 1];
      TargetKept(init, es[..|es| - 1], c);
      if Enabled(s, e) { TargetStep(s, e, c); }
    }
  }

  lemma TargetStep(s: State, e: Event, c: nat)
    requires Enabled(s, e)
    ensures |Next(s, e).consumers| == |s.consumers|
    ensures c < |s.consumers| ==>
      var pc, pc' := s.consumers[c], Next(s, e).consumers[c];
      if e == Release(c) then pc'.Idle? && !pc.Idle?
      else if e.Claim? && e.c == c then pc.Idle? && !pc'.Idle? && pc'.b == s.head && pc'.last == e.last
      else if e == Follow(c) then !pc.Idle? && !pc'.Idle? && pc'.b == pc.b + 1 && pc'.last == pc.last
      else pc'.Idle? == pc.Idle? && (!pc.Idle? ==> pc'.b == pc.b && pc'.last == pc.last)
  {}

  /** How many loads the consumer has before it until it uses its block. */
  function Loads(pc: Consumer): nat
  {
    match pc
    case Idle => 0
    case LoadHeader(_, _) => 4
    case LoadFront(_, _, _) => 3
    case LoadBase(_, _, _, _) => 2
    case LoadEntry(_, _, _, _, _) => 1
    case LoadNext(_, _, _, _) => 1
    case Using(_, _, _, _, _) => 0
  }

  /** A look-up takes four loads, or one from block to block, whatever the producer and other consumers do. */
  lemma LoadsEnd(s: State, e: Event, c: nat)
    requires Enabled(s, e) && c < |s.consumers|
    ensures |Next(s, e).consumers| == |s.consumers|
    ensures var left, left' := Loads(s.consumers[c]), Loads(Next(s, e).consumers[c]);
      if e == Advance(c) then left' == left - 1
      else if e.Claim? && e.c == c then left' == 4
      else if e == Follow(c) then left' == 1
      else left' == left
  {}

  /** The producer completes an entry with its next two stores. */
  lemma WritesEnd(s: State)
    requires Inv(s) && s.producer.WriteBase?
    ensures Enabled(s, Write) && Enabled(Next(s, Write), Write)
    ensures var s' := Next(Next(s, Write), Write);
      s'.producer == Ready && s'.headers != [] && Current(s').hi == Current(s).hi + 1
  {}

  /**
   However the producer's stores and the consumers' loads interleave, over reuse of entries and any
   number of replaced indices: a consumer that has done its loads uses the block with the number of
   the index it claimed, and so on through the blocks of its claim; and no load is ever out of range.
   */
  lemma LookUpIsExact(init: State, es: seq<Event>, c: nat)
    requires Initial(init)
    requires var s := Play(init, es); c < |s.consumers|
    ensures var s := Play(init, es); var pc := s.consumers[c];
      && (!pc.Idle? ==> Target(init, es, c) == Some((pc.b, pc.last)))
      && (pc.Using? ==> pc.b < |s.address| && pc.block == s.address[pc.b])
      && (!pc.Idle? && !pc.Using? ==> Enabled(s, Advance(c)))
      && (pc.Using? && pc.b < pc.last ==> Enabled(s, Follow(c)))
  {
    TargetKept(init, es, c);
    InitialInv(init);
    PlayInv(init, es);
    var s := Play(init, es);
    var pc := s.consumers[c];
    assert ConsumerOk(s, pc) && HeaderOk(Current(s), s.address);
    if !pc.Idle? && !pc.LoadHeader? { assert HeaderOk(s.headers[pc.header], s.address); }
  }
}
