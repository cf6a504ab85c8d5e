/**
 One explicit producer: the blocks and the block index of module BlockStore, changed in place by the
 operations of the queue.  Together they refine a FIFO sequence.

 `items` is every item ever enqueued, so an item's position in it is its index.  The producer's
 methods run one at a time; a consumer first claims indices, and may look up, move out and destroy
 its items any number of enqueues later.
 */
module ExplicitProducer {
  import opened CircularIndex
  import opened Sequences
  import opened BlockStore
  import opened Wrappers

  class ExplicitProducer<T(0)> {
    const blockSize: nat
    const half: nat                    // half the range of an index
    const maxSubqueueSize: Option<nat> // None when there is no limit

    var tailIndex: nat
    var headIndex: nat
    var tailBlock: Option<nat>
    var memory: map<nat, Block<T>>     // the blocks, by address

    // the producer's view of its block index, whose names in the source start with pr_
    var indexRaw: bool                 // a block index has been allocated
    var slotsUsed: nat
    var indexSize: nat
    var indexFront: nat                // next slot

    // the header that consumers read
    var front: int                     // current slot
    var entries: seq<Entry>

    ghost var items: seq<T>            // every item ever enqueued
    ghost var pending: set<nat>        // indices claimed by consumers that have not destroyed the item yet
    ghost var ring: seq<nat>           // the blocks from tailBlock->next around to tailBlock
    ghost var bases: seq<nat>          // the index of the first item of each block of the ring
    ghost var pos: nat                 // slots filled since the index was last rebuilt

    ghost function V(): View<T>
      reads `items, `headIndex, `pending
    {
      View(items, headIndex, pending)
    }

    ghost function S(): Store<T>
      reads `ring, `bases, `memory
    {
      Store(ring, bases, memory)
    }

    /** What consumers can still claim, oldest first. */
    ghost function Contents(): seq<T>
      reads this
      requires headIndex <= |items|
    {
      items[headIndex..]
    }

    ghost predicate IndexOk()
      reads `indexRaw, `slotsUsed, `indexSize, `indexFront, `entries, `ring, `bases, `pos
    {
      && indexSize > 0
      && slotsUsed == |ring| == |bases|
      && (if indexRaw then
            && |entries| == indexSize && slotsUsed <= indexSize && slotsUsed <= pos
            && indexFront == pos % indexSize
            && WindowOk(entries, pos, ring, bases)
          else ring == [])
    }

    /** The blocks hold the live items, and the index lists the blocks; the first `n` blocks are in use. */
    ghost predicate Stored(n: nat)
      reads `items, `headIndex, `pending, `memory
      reads `indexRaw, `slotsUsed, `indexSize, `indexFront, `entries, `ring, `bases, `pos
    {
      blockSize > 1 && n <= |ring| && StoreOk(S(), V(), blockSize, n) && IndexOk()
    }

    ghost predicate Linked(n: nat)
      reads this
    {
      Stored(n) && tailBlock == (if ring == [] then None else Some(ring[|ring| - 1]))
    }

    ghost predicate Published()
      reads `ring, `indexSize, `front, `pos
    {
      ring != [] ==> indexSize > 0 && front == (pos - 1) % indexSize
    }

    ghost predicate Valid()
      reads this
    {
      && Linked(|ring|) && Published()
      && tailIndex == |items|
      && headIndex <= |items|
      && (if ring == [] then items == []
          else bases[|bases| - 1] < |items| <= bases[|bases| - 1] + blockSize)
    }

    /** The tail block has room for the next item. */
    ghost predicate Room()
      reads this
    {
      && Linked(|ring|) && Published()
      && ring != [] && tailIndex == |items|
      && bases[|bases| - 1] <= tailIndex < bases[|bases| - 1] + blockSize
    }

    constructor (blockSize: nat, half: nat, maxSubqueueSize: Option<nat>, initialIndexSize: nat, gotMemory: bool)
      requires blockSize > 1 && half > 0 && initialIndexSize > 0
      ensures Valid() && items == [] && pending == {} && headIndex == 0
      ensures this.blockSize == blockSize && this.half == half && this.maxSubqueueSize == maxSubqueueSize
      ensures indexRaw == gotMemory
    {
      this.blockSize, this.half, this.maxSubqueueSize := blockSize, half, maxSubqueueSize;
      tailIndex, headIndex, tailBlock, memory := 0, 0, None, map[];
      indexRaw, slotsUsed, indexSize, indexFront := false, 0, initialIndexSize, 0;
      front, entries := -1, [];
      items, pending, ring, bases, pos := [], {}, [], [], 0;
      new;
      var _ := NewBlockIndex(0, gotMemory);
    }

    // ----- the block index

    /** The entries in use, oldest first, at the start of an index twice the size. */
    method CopyInUse() returns (newEntries: seq<Entry>)
      requires IndexOk()
      ensures |newEntries| == 2 * indexSize
      ensures forall k :: 0 <= k < slotsUsed ==> newEntries[k] == Entry(bases[k], ring[k])
    {
      newEntries := seq(2 * indexSize, _ => Entry(0, 0));
      var j := 0;
      if slotsUsed != 0 {
        var i := (indexFront - slotsUsed) % indexSize;
        RemainderOfSum(pos, 0 - slotsUsed, indexSize);
        while true
          invariant 0 <= j < slotsUsed
          invariant i == Slot(pos, slotsUsed, j, indexSize)
          invariant |newEntries| == 2 * indexSize
          invariant forall k :: 0 <= k < j ==> newEntries[k] == Entry(bases[k], ring[k])
          decreases slotsUsed - j
        {
          newEntries := newEntries[j := entries[i]];
          NextSlot(pos, slotsUsed, j, indexSize);
          j := j + 1;
          i := (i + 1) % indexSize;
          if i == indexFront {
            break;
          }
        }
        if j < slotsUsed { SlotsDiffer(pos - slotsUsed + j, pos, indexSize); }
      }
    }

    /** Doubles the block index, copying the entries in use to its start. */
    method NewBlockIndex(numberOfFilledSlotsToExpose: nat, gotMemory: bool) returns (ok: bool)
      requires IndexOk()
      modifies `indexRaw, `indexSize, `indexFront, `front, `entries, `pos
      ensures IndexOk() && ok == gotMemory
      ensures !ok ==> unchanged(this)
      ensures ok ==> indexRaw && indexSize == 2 * old(indexSize) && pos == slotsUsed < indexSize
      ensures ok ==> front == numberOfFilledSlotsToExpose - 1
    {
      if !gotMemory {
        return false;
      }
      var newEntries := CopyInUse();
      var j := slotsUsed;
      indexSize := 2 * indexSize;
      indexFront, pos, entries, indexRaw := j, j, newEntries, true;
      front := numberOfFilledSlotsToExpose - 1;
      forall k | 0 <= k < slotsUsed ensures Slot(pos, slotsUsed, k, indexSize) == k {
        RemainderIsUnique(k, 0, k, indexSize);
      }
      RemainderIsUnique(pos, 0, pos, indexSize);
      ok := true;
    }

    /** Writes the entry of the newest block, whose items start at `base`. */
    method AddEntry(base: nat)
      requires indexRaw && |entries| == indexSize && indexSize > 0
      requires ring != [] && slotsUsed == |ring| == |bases| <= indexSize && slotsUsed <= pos + 1
      requires indexFront == pos % indexSize
      requires Lists(entries, pos + 1, ring, bases, |ring| - 1)
      requires tailBlock == Some(ring[|ring| - 1]) && base == bases[|bases| - 1]
      modifies `entries, `indexFront, `pos
      ensures IndexOk() && pos == old(pos) + 1
    {
      hide Lists, WindowOk;
      WindowAfterWrite(entries, pos + 1, ring, bases);
      entries := entries[indexFront := Entry(base, tailBlock.value)];
      RemainderOfSum(pos, 1, indexSize);
      indexFront := (indexFront + 1) % indexSize;
      pos := pos + 1;
    }

    /** Shows the newest entry to the consumers. */
    method PublishFront()
      requires Linked(|ring|) && indexRaw
      modifies `front
      ensures Linked(|ring|) && Published()
    {
      hide StoreOk, WindowOk;
      front := (indexFront - 1) % indexSize;
      RemainderOfSum(pos, -1, indexSize);
    }

    // ----- starting a block

    /** A block whose items start at `base` would leave too little leeway, or exceed the size limit. */
    predicate Full(base: int)
      reads `headIndex
    {
      || base + blockSize - headIndex >= half
      || (maxSubqueueSize.Some?
          && (maxSubqueueSize.value == 0 || maxSubqueueSize.value - blockSize < base - headIndex))
    }

    /** The same test on the machine's words, which the source makes; a size limit is a multiple of the block size. */
    lemma FullOnWords(base: int)
      requires half > 0 && blockSize > 0 && headIndex <= base && base + blockSize < headIndex + 2 * half
      requires maxSubqueueSize.Some? ==> maxSubqueueSize.value == 0 || blockSize <= maxSubqueueSize.value < 2 * half
      ensures Full(base) <==>
        || !CircularLessThan(Wrap(headIndex, half), Wrap(base + blockSize, half), half)
        || (maxSubqueueSize.Some?
            && (maxSubqueueSize.value == 0
                || Wrap(maxSubqueueSize.value - blockSize, half) < Wrap(Wrap(base, half) - Wrap(headIndex, half), half)))
    {
      LeewayOnWords(headIndex, base + blockSize, half);
      WrapOfDifference(base, headIndex, half);
      RemainderIsUnique(base - headIndex, 0, base - headIndex, 2 * half);
      if maxSubqueueSize.Some? && maxSubqueueSize.value > 0 {
        RemainderIsUnique(maxSubqueueSize.value - blockSize, 0, maxSubqueueSize.value - blockSize, 2 * half);
      }
    }

    /** The next item starts a new block. */
    predicate AtBoundary()
      reads this
      requires blockSize > 0
    {
      tailIndex % blockSize == 0
    }

    /** The block ahead of the tail block has been emptied. */
    ghost predicate NextIsEmpty()
      reads this
    {
      ring != [] && ring[0] in memory && IsEmpty(memory[ring[0]])
    }

    /** A new block can be started, given what the allocator of the index and the pool of blocks yield. */
    ghost predicate CanStart(indexMemory: bool, pool: Option<nat>)
      reads this
    {
      || NextIsEmpty()
      || (!Full(tailIndex) && ((indexRaw && slotsUsed < indexSize) || indexMemory) && pool.Some?)
    }

    lemma LastBlock()
      requires Valid() && ring != []
      ensures AtBoundary() <==> tailIndex == bases[|bases| - 1] + blockSize
      ensures tailIndex == bases[|bases| - 1] + blockSize || Room()
    {
      StoreFacts(S(), V(), blockSize, |ring|);
      hide StoreOk, WindowOk;
      var base := bases[|bases| - 1];
      if tailIndex < base + blockSize {
        BaseIsUnique(base, tailIndex, blockSize);
      } else {
        NextBase(base, blockSize);
      }
    }

    lemma BlockFacts(k: nat)
      requires Stored(|ring|) && k < |ring|
      ensures |bases| == |ring| && ring[k] in memory && |memory[ring[k]].cells| == blockSize && bases[k] % blockSize == 0
      ensures BasesOk(bases, blockSize)
      ensures k + 1 < |ring| ==> memory[ring[k]].next == ring[k + 1]
      ensures forall j :: 0 <= j < |ring| && ring[j] == ring[k] ==> j == k
    {
      StoreFacts(S(), V(), blockSize, |ring|);
    }

    /** The tail block is there, and the block ahead of it is the oldest one. */
    lemma TailBlock(n: nat)
      requires Linked(n)
      ensures ring != [] ==>
        tailBlock.value in memory && memory[tailBlock.value].next == ring[0] && ring[0] in memory
    {
      StoreFacts(S(), V(), blockSize, n);
    }

    /** The block ahead, whose flags are all up, becomes the tail block, with its entry written. */
    method Advance(ghost n: nat, base: nat)
      requires Linked(n) && n > 0 && indexRaw && NextIsEmpty()
      requires base == LastBase(bases, blockSize) + blockSize && |items| <= base
      modifies `tailBlock, `ring, `bases, `entries, `indexFront, `pos
      ensures Linked(n - 1) && |ring| == |bases| == old(|ring|) && bases[|bases| - 1] == base
      ensures ring == Rotate(old(ring), old(ring[0])) && bases == Rotate(old(bases), base)
      ensures old(bases[0]) + blockSize <= |items|
    {
      hide StoreOk, WindowOk, Lists, IsEmpty, BasesOk;
      TailBlock(n);
      TurnKeepsStore(S(), V(), blockSize, n, base);
      WindowTurns(entries, pos, ring, bases, base);
      tailBlock := Some(memory[tailBlock.value].next);
      ring := Rotate(ring, ring[0]);
      bases := Rotate(bases, base);
      assert S() == Turn(old(S()), base);
      AddEntry(base);
    }

    /** A block that is not in the ring is linked in behind the tail block, with its entry written. */
    method Inject(ghost n: nat, base: nat, b: nat)
      requires Linked(n) && b !in ring && indexRaw && slotsUsed < indexSize
      requires base == LastBase(bases, blockSize) + blockSize
      modifies `tailBlock, `memory, `slotsUsed, `ring, `bases, `entries, `indexFront, `pos
      ensures Linked(n) && ring == old(ring) + [b] && bases == old(bases) + [base]
    {
      hide StoreOk, WindowOk, Lists, Insert, AllEmpty;
      TailBlock(n);
      InsertKeepsStore(S(), V(), blockSize, n, b, AllEmpty(b, blockSize), base);
      WindowGrows(entries, pos, ring, bases, b, base);
      LinkIn(base, b);
      slotsUsed := slotsUsed + 1;
      AddEntry(base);
    }

    /** A block whose flags are all up is put between the tail block and the one after it. */
    method LinkIn(base: nat, b: nat)
      requires tailBlock == (if ring == [] then None else Some(ring[|ring| - 1]))
      requires tailBlock.Some? ==> tailBlock.value in memory
      modifies `tailBlock, `memory, `ring, `bases
      ensures S() == Insert(old(S()), b, AllEmpty(b, blockSize), base) && tailBlock == Some(b)
      ensures ring == old(ring) + [b] && bases == old(bases) + [base]
    {
      var block := AllEmpty<T>(b, blockSize);
      if tailBlock == None {
        block := block.(next := b);
      } else {
        block := block.(next := memory[tailBlock.value].next);
        memory := memory[tailBlock.value := memory[tailBlock.value].(next := b)];
      }
      memory := memory[b := block];
      tailBlock := Some(b);
      ring, bases := ring + [b], bases + [base];
    }

    /** `reset_empty` on the tail block, which puts it in use. */
    method ResetTail()
      requires ring != [] && |bases| == |ring| && Linked(|ring| - 1) && |items| <= bases[|bases| - 1]
      modifies `memory
      ensures Linked(|ring|)
    {
      hide StoreOk, WindowOk, BasesOk;
      TailBlock(|ring| - 1);
      ResetKeepsStore(S(), V(), blockSize, |ring| - 1);
      memory := memory[tailBlock.value := Reset(memory[tailBlock.value])];
      assert S() == Change(old(S()), ring[|ring| - 1], Reset(old(memory)[ring[|ring| - 1]]));
    }

    /** Doubling the index between two items changes nothing for the consumers. */
    method GrowIndex(gotMemory: bool) returns (ok: bool)
      requires Valid()
      modifies `indexRaw, `indexSize, `indexFront, `front, `entries, `pos
      ensures Valid() && ok == gotMemory
      ensures ok ==> indexRaw && slotsUsed < indexSize
      ensures !ok ==> unchanged(this)
    {
      hide StoreOk, WindowOk;
      ok := NewBlockIndex(slotsUsed, gotMemory);
      if ok && ring != [] { RemainderIsUnique(pos - 1, 0, pos - 1, indexSize); }
    }

    lemma AtBoundaryFacts()
      requires Valid() && AtBoundary()
      ensures blockSize > 1 && Linked(|ring|) && |ring| == |bases| && tailIndex == |items|
      ensures tailIndex == LastBase(bases, blockSize) + blockSize
      ensures tailBlock.Some? <==> ring != []
      ensures ring != [] ==>
        indexRaw && tailBlock.value in memory && memory[tailBlock.value].next == ring[0] && ring[0] in memory
    {
      hide StoreOk, WindowOk;
      TailBlock(|ring|);
      if ring != [] { LastBlock(); }
    }

    /**
     Starts a new block for the item with index `tailIndex`.  `indexMemory` is whether the allocator
     yields a larger index, and `pool` is the block that the pool yields, if any.
     */
    method StartBlock(indexMemory: bool, pool: Option<nat>) returns (ok: bool)
      requires Valid() && AtBoundary()
      requires pool.Some? ==> pool.value !in ring
      modifies `tailBlock, `memory, `slotsUsed, `ring, `bases,
               `indexRaw, `indexSize, `indexFront, `front, `entries, `pos
      ensures ok ==> Room()
      ensures !ok ==> Valid()
      ensures ok == old(CanStart(indexMemory, pool))
    {
      hide Valid, Linked, IsEmpty, Published, AtBoundary;
      AtBoundaryFacts();
      if tailBlock.Some? && IsEmpty(memory[memory[tailBlock.value].next]) {
        Advance(|ring|, tailIndex);
        ok := true;
      } else {
        ok := AddBlock(indexMemory, pool);
      }
      if ok {
        OpenTail();
      }
    }

    /** Puts the new tail block in use, and shows its entry to the consumers. */
    method OpenTail()
      requires ring != [] && |bases| == |ring| && Linked(|ring| - 1) && indexRaw
      requires |items| == tailIndex == bases[|bases| - 1]
      modifies `memory, `front
      ensures Room()
    {
      hide StoreOk, WindowOk;
      ResetTail();
      PublishFront();
    }

    /** A block from the pool is linked in for the item with index `tailIndex`. */
    method AddBlock(indexMemory: bool, pool: Option<nat>) returns (ok: bool)
      requires Valid() && tailIndex == LastBase(bases, blockSize) + blockSize
      requires pool.Some? ==> pool.value !in ring
      modifies `tailBlock, `memory, `slotsUsed, `ring, `bases,
               `indexRaw, `indexSize, `indexFront, `front, `entries, `pos
      ensures ok ==> ring != [] && indexRaw && Linked(|ring| - 1) && |bases| == |ring| && bases[|bases| - 1] == tailIndex
      ensures !ok ==> Valid()
      ensures ok == old(!Full(tailIndex) && ((indexRaw && slotsUsed < indexSize) || indexMemory) && pool.Some?)
    {
      hide StoreOk, WindowOk, BasesOk;
      if Full(tailIndex) {
        return false;
      }
      if !indexRaw || slotsUsed == indexSize {
        var grown := GrowIndex(indexMemory);
        if !grown {
          return false;
        }
      }
      if pool == None {
        return false;
      }
      Inject(|ring|, tailIndex, pool.value);
      ok := true;
    }

    // ----- enqueue and dequeue

    /** Constructs the item with the given index, the next one, in the tail block. */
    method ConstructNext(index: nat, x: T, ghost k: nat)
      requires Stored(|ring|) && k < |ring| && tailBlock == Some(ring[k])
      requires index == |items| && bases[k] <= index < bases[k] + blockSize
      modifies `memory, `items
      ensures Stored(|ring|) && items == old(items) + [x]
    {
      hide StoreOk, WindowOk, BasesOk;
      BlockFacts(k);
      ConstructKeepsStore(S(), V(), blockSize, |ring|, k, x);
      var b, o := tailBlock.value, index % blockSize;
      BaseIsUnique(bases[k], index, blockSize);
      memory := memory[b := Construct(memory[b], o, x)];
      items := items + [x];
      assert S() == Change(old(S()), ring[k], Construct(old(memory)[ring[k]], |old(items)| - bases[k], x));
      assert V() == old(V()).(items := old(V()).items + [x]);
    }

    /**
     Enqueues one item.  It fails exactly when a new block is needed and cannot be had, and a failed
     enqueue leaves the contents, and every claimed item, as they were.
     */
    method Enqueue(x: T, indexMemory: bool, pool: Option<nat>) returns (ok: bool)
      requires Valid()
      requires pool.Some? ==> pool.value !in ring
      modifies this
      ensures Valid()
      ensures headIndex == old(headIndex) && pending == old(pending)
      ensures items == if ok then old(items) + [x] else old(items)
      ensures Contents() == if ok then old(Contents()) + [x] else old(Contents())
      ensures ok == old(!AtBoundary() || CanStart(indexMemory, pool))
    {
      hide StoreOk, IndexOk, Published;
      ok := true;
      if AtBoundary() {
        ok := StartBlock(indexMemory, pool);
      } else {
        InsideBlock();
      }
      if ok {
        Append(x);
      }
    }

    lemma InsideBlock()
      requires Valid() && !AtBoundary()
      ensures Room()
    {
      RemainderIsUnique(0, 0, 0, blockSize);
      LastBlock();
    }

    /** Constructs the item in the tail block, and then counts it. */
    method Append(x: T)
      requires Room() && headIndex <= |items|
      modifies `memory, `items, `tailIndex
      ensures Valid() && items == old(items) + [x] && Contents() == old(Contents()) + [x]
    {
      hide StoreOk, WindowOk;
      ConstructNext(tailIndex, x, |ring| - 1);
      tailIndex := tailIndex + 1;
    }

    /** A consumer takes the next `count` indices; that so many are there is what the counters guarantee. */
    method Claim(count: nat) returns (first: nat)
      requires Valid() && headIndex + count <= tailIndex
      modifies `headIndex, `pending
      ensures Valid()
      ensures first == old(headIndex) && headIndex == first + count
      ensures forall i :: i in pending <==> i in old(pending) || first <= i < first + count
      ensures old(Contents()) == items[first..first + count] + Contents()
    {
      hide StoreOk, IndexOk, Published;
      ClaimKeepsStore(S(), V(), blockSize, count);
      first := headIndex;
      headIndex := headIndex + count;
      pending := pending + Range(first, count);
      assert V() == Claimed(old(V()), count);
      TakeFirst(items, first, count);
    }

    lemma TakeFirst(xs: seq<T>, first: nat, count: nat)
      requires first + count <= |xs|
      ensures xs[first..] == xs[first..first + count] + xs[first + count..]
    {}

    lemma PendingBelow(v: View<T>)
      requires StoreOk(S(), v, blockSize, |ring|)
      ensures forall i :: i in v.pending ==> i < v.head
    {}

    /** Whatever is pending lies in some block of the ring. */
    lemma PendingBlock(i: nat) returns (j: nat)
      requires Valid() && i in pending
      ensures j < |ring| && bases[j] <= i < bases[j] + blockSize
    {
      PendingBelow(V());
      assert Live(V(), i);
      j := BlockOf(bases, blockSize, i, |bases|);
    }

    /** The slot that a consumer computes for a claimed index is that of the block that holds the item. */
    method FindSlot(index: nat) returns (slot: nat, ghost j: nat)
      requires Valid() && index in pending
      ensures AtBlock(slot, index, j)
      ensures slot < |entries| && blockSize > 0 && entries[slot].base == BlockBase(index, blockSize)
    {
      hide Valid, Slot;
      j := SlotFound(index);
      var localBlockIndexHead := front;
      var headBase := entries[localBlockIndexHead].base;
      var blockBaseIndex := BlockBase(index, blockSize);
      var offset := TruncatedDivision(blockBaseIndex - headBase, blockSize);
      slot := (localBlockIndexHead + offset) % |entries|;
    }

    /**
     The source makes this computation on words.  The slot is the same: the index range is a whole number of
     block indices, whose sizes are powers of two, so that not even a claim that has been left standing
     for more than half the range is looked up in a wrong place.
     */
    lemma LookUpOnWords(index: nat, turns: nat)
      requires Valid() && index in pending && half > 0 && 2 * half == turns * |entries| * blockSize
      ensures blockSize > 0 && 0 <= front < |entries|
      ensures SlotOf(Wrap(index, half), front, Wrap(entries[front].base, half), blockSize, |entries|, half)
           == LookUp(entries, front, index, blockSize)
    {
      hide Valid, SlotOf, Wrap, BlockBase, TruncatedDivision;
      var j := SlotFound(index);
      FrontBase();
      SlotOnWords(index, front, entries[front].base, blockSize, |entries|, half, turns * |entries|, turns);
    }

    lemma FrontBase()
      requires Valid() && ring != [] && 0 <= front < |entries|
      ensures blockSize > 0 && entries[front].base % blockSize == 0
    {
      hide StoreOk, BasesOk;
      BlockFacts(|ring| - 1);
      assert Lists(entries, pos, ring, bases, |ring| - 1);
    }

    lemma SlotFound(index: nat) returns (j: nat)
      requires Valid() && index in pending
      ensures blockSize > 0 && 0 <= front < |entries| && AtBlock(LookUp(entries, front, index, blockSize), index, j)
      ensures bases[j] == BlockBase(index, blockSize)
    {
      hide StoreOk, BasesOk;
      j := PendingBlock(index);
      BlockFacts(j);
      BaseIsUnique(bases[j], index, blockSize);
      LookUpFindsBlock(entries, pos, ring, bases, blockSize, index, j, |ring| - 1);
    }

    /**
     The rest of `dequeue`, once `index` has been claimed: whatever was enqueued, reused or
     reallocated in the meantime, the look-up finds the item enqueued with that index.
     */
    method Dequeue(index: nat) returns (element: T)
      requires Valid() && index in pending
      modifies `memory, `pending
      ensures Valid()
      ensures element == items[index]
      ensures pending == old(pending) - {index}
    {
      hide Valid;
      var slot, j := FindSlot(index);
      var out := Drain(entries[slot].block, index, 1, j);
      element := out[0];
    }

    /** Moves the claimed items `first .. first + count` out of their block, destroys them, and raises their flags. */
    method Drain(block: nat, first: nat, count: nat, ghost j: nat) returns (out: seq<T>)
      requires Valid() && j < |ring| == |bases| && block == ring[j]
      requires bases[j] <= first && first + count <= bases[j] + blockSize && count > 0
      requires forall i :: first <= i < first + count ==> i in pending
      modifies `memory, `pending
      ensures Valid()
      ensures first + count <= |items| && out == items[first..first + count]
      ensures forall i :: i in pending <==> i in old(pending) && !(first <= i < first + count)
    {
      hide Valid;
      DrainFacts(j, first, count);
      var cells;
      out, cells := MoveOut(memory[block], first, count, bases[j]);
      var emptyFlags := SetManyEmpty(memory[block], first, count);
      Release(block, memory[block].(cells := cells, emptyFlags := emptyFlags), j, first, count);
    }

    lemma DrainFacts(j: nat, first: nat, count: nat)
      requires Valid() && j < |ring| && |bases| == |ring|
      requires bases[j] <= first && first + count <= bases[j] + blockSize && count > 0
      requires forall i :: first <= i < first + count ==> i in pending
      ensures ring[j] in memory && blockSize > 0 && first % blockSize == first - bases[j] && first + count <= |items|
      ensures var block := memory[ring[j]];
        && |block.cells| == |block.emptyFlags| == blockSize
        && forall k :: first <= k < first + count ==> HasItem(block, k, bases[j], V())
    {
      StoreFacts(S(), V(), blockSize, |ring|);
      DestroyKeepsStore(S(), V(), Released(V(), first, count), blockSize, j, first, count);
      BaseIsUnique(bases[j], first, blockSize);
      assert HasItem(memory[ring[j]], first + (count - 1), bases[j], V());
    }

    /** Raising the flags ends the claim. */
    method Release(b: nat, block: Block<T>, ghost j: nat, ghost first: nat, ghost count: nat)
      requires Valid() && j < |ring| && |bases| == |ring| && b == ring[j] && b in memory
      requires bases[j] <= first && first + count <= bases[j] + blockSize
      requires forall i :: first <= i < first + count ==> i in pending
      requires block == Destroy(memory[b], first - bases[j], count)
      modifies `memory, `pending
      ensures Valid()
      ensures forall i :: i in pending <==> i in old(pending) && !(first <= i < first + count)
    {
      hide StoreOk, IndexOk, Published;
      DestroyKeepsStore(S(), V(), Released(V(), first, count), blockSize, j, first, count);
      memory := memory[b := block];
      pending := pending - Range(first, count);
      assert S() == Change(old(S()), ring[j], Destroy(old(memory)[ring[j]], first - bases[j], count));
      assert V() == Released(old(V()), first, count);
    }

    /** Moves the items `first .. first + count` out of a block, one by one, and destroys them. */
    method MoveOut(block: Block<T>, first: nat, count: nat, ghost base: nat) returns (out: seq<T>, cells: seq<Cell<T>>)
      requires blockSize > 0 && |block.cells| == blockSize && first + count <= |items|
      requires base <= first && first + count <= base + blockSize && first % blockSize == first - base
      requires forall k :: first <= k < first + count ==> HasItem(block, k, base, V())
      ensures out == items[first..first + count]
      ensures cells == Destroy(block, first - base, count).cells
    {
      var o := first % blockSize;
      cells, out := block.cells, [];
      var n := 0;
      while n != count
        invariant n <= count && |cells| == blockSize && out == items[first..first + n]
        invariant forall k :: 0 <= k < blockSize ==> cells[k] == if o <= k < o + n then Raw else block.cells[k]
      {
        assert HasItem(block, first + n, base, V());
        out := out + [cells[o + n].value];
        cells := cells[o + n := Raw];
        n := n + 1;
      }
    }

    /** `set_many_empty`: raises the flags of `count` elements; flags are kept in the reverse order of elements. */
    method SetManyEmpty(block: Block<T>, i: nat, count: nat) returns (raised: seq<bool>)
      requires blockSize > 0 && |block.emptyFlags| == blockSize && i % blockSize + count <= blockSize
      ensures raised == Destroy(block, i % blockSize, count).emptyFlags
    {
      var from := blockSize - 1 - i % blockSize - count + 1;
      raised := block.emptyFlags;
      var j := 0;
      while j != count
        invariant j <= count && |raised| == blockSize
        invariant forall p :: 0 <= p < blockSize ==> raised[p] == (from <= p < from + j || block.emptyFlags[p])
      {
        raised := raised[from + j := true];
        j := j + 1;
      }
    }

    /** The rest of `dequeue_bulk`, once the indices `first .. first + count` have been claimed. */
    method DequeueBulk(first: nat, count: nat) returns (out: seq<T>)
      requires Valid() && count > 0
      requires forall i :: first <= i < first + count ==> i in pending
      modifies `memory, `pending
      ensures Valid()
      ensures first + count <= |items| && out == items[first..first + count]
      ensures forall i :: i in pending <==> i in old(pending) && !(first <= i < first + count)
    {
      hide Valid, AtBlock;
      var indexIndex: nat, j: nat := FindSlot(first);
      ClaimedFacts();
      var index: nat := first;
      out := [];
      while true
        invariant first <= index < first + count && Valid()
        invariant forall i :: i in pending <==> i in old(pending) && !(first <= i < index)
        invariant index <= |items| && out == items[first..index]
        invariant AtBlock(indexIndex, index, j)
        decreases first + count - index
      {
        var part, endIndex := DrainBlock(indexIndex, index, first + count, j);
        assert items[first..endIndex] == items[first..index] + items[index..endIndex];
        out := out + part;
        ghost var was := indexIndex;
        indexIndex := (indexIndex + 1) % |entries|;
        if endIndex != first + count { NextBlock(was, j, index, endIndex); }
        index, j := endIndex, j + 1;
        if index == first + count {
          break;
        }
      }
    }

    /** One block's share of the claimed items up to `stop`. */
    method DrainBlock(indexIndex: nat, index: nat, stop: nat, ghost j: nat) returns (part: seq<T>, endIndex: nat)
      requires Valid() && index < stop && AtBlock(indexIndex, index, j)
      requires forall i :: index <= i < stop ==> i in pending
      modifies `memory, `pending
      ensures Valid() && index < endIndex <= stop && entries != []
      ensures endIndex < stop ==> j < |bases| && endIndex == bases[j] + blockSize
      ensures endIndex <= |items| && part == items[index..endIndex]
      ensures forall i :: i in pending <==> i in old(pending) && !(index <= i < endIndex)
    {
      hide Valid, Slot, BlockBase;
      BlockEnd(j, index);
      endIndex := BlockBase(index, blockSize) + blockSize;
      if stop < endIndex {
        endIndex := stop;
      }
      part := Drain(entries[indexIndex].block, index, endIndex - index, j);
    }

    lemma ClaimedFacts()
      requires Valid()
      ensures headIndex <= |items| && forall i :: i in pending ==> i < headIndex
    {
      PendingBelow(V());
    }

    /** Slot `slot` of the index is that of block `j` of the ring, the block of the item with this index. */
    ghost predicate AtBlock(slot: nat, index: nat, j: nat)
      reads `indexRaw, `indexSize, `entries, `ring, `bases, `pos
    {
      && j < |ring| == |bases| && slot < |entries| == indexSize && indexRaw
      && bases[j] <= index < bases[j] + blockSize
      && slot == Slot(pos, |ring|, j, indexSize) && entries[slot] == Entry(bases[j], ring[j])
    }

    lemma BlockEnd(j: nat, index: nat)
      requires Valid() && j < |ring| == |bases| && bases[j] <= index < bases[j] + blockSize
      ensures blockSize > 0 && BlockBase(index, blockSize) == bases[j]
    {
      StoreFacts(S(), V(), blockSize, |ring|);
      BaseIsUnique(bases[j], index, blockSize);
    }

    /** A claimed index that starts a block lies in the block after the one that ends there. */
    lemma NextBlock(slot: nat, j: nat, index: nat, next: nat)
      requires Valid() && AtBlock(slot, index, j) && next in pending && next == bases[j] + blockSize
      ensures AtBlock((slot + 1) % |entries|, next, j + 1)
    {
      hide StoreOk, BasesOk;
      NextSlot(pos, |ring|, j, indexSize);
      var k := PendingBlock(next);
      BlockFacts(j);
      NextIsAfter(bases, blockSize, j, k);
    }

    // ----- enqueue_bulk

    /** `reset_empty` on each of the new blocks, from `firstAllocatedBlock` to the tail block. */
    method ResetSpares(ghost n: nat, firstAllocatedBlock: nat)
      requires Linked(n) && n < |ring| == |bases| && firstAllocatedBlock == ring[n] && |items| <= bases[n]
      modifies `memory
      ensures Linked(|ring|)
    {
      hide Linked;
      ghost var k := n;
      var block := firstAllocatedBlock;
      while true
        invariant n <= k < |ring| == |bases| && block == ring[k] && |items| <= bases[k]
        invariant Linked(k)
        decreases |ring| - k
      {
        var last := ResetOne(k, block);
        k := k + 1;
        if last {
          break;
        }
        block := memory[block].next;
      }
    }

    method ResetOne(ghost k: nat, block: nat) returns (last: bool)
      requires Linked(k) && k < |ring| == |bases| && block == ring[k] && |items| <= bases[k]
      modifies `memory
      ensures Linked(k + 1) && last == (k == |ring| - 1)
      ensures !last ==>
        block in memory && memory[block].next == ring[k + 1] && bases[k] <= bases[k + 1]
    {
      hide StoreOk, WindowOk, Reset;
      RingFacts(k, k);
      ResetKeepsStore(S(), V(), blockSize, k);
      memory := memory[block := Reset(memory[block])];
      assert S() == Change(old(S()), ring[k], Reset(old(memory)[ring[k]]));
      RingFacts(k + 1, k);
      last := tailBlock == Some(block);
    }

    lemma RingFacts(n: nat, k: nat)
      requires Linked(n) && k < |ring|
      ensures |bases| == |ring| && ring[k] in memory && (ring[k] == ring[|ring| - 1] <==> k == |ring| - 1)
      ensures k + 1 < |ring| ==> memory[ring[k]].next == ring[k + 1] && bases[k] <= bases[k + 1]
    {
      StoreFacts(S(), V(), blockSize, n);
    }

    /** Constructs the items `xs`, which fit into the tail block, from the index `first` on. */
    method FillBlock(xs: seq<T>, first: nat, ghost k: nat)
      requires Stored(|ring|) && k < |ring| == |bases| && tailBlock == Some(ring[k]) && first == |items|
      requires xs == [] || (bases[k] <= first && first + |xs| <= bases[k] + blockSize)
      modifies `memory, `items
      ensures Stored(|ring|) && items == old(items) + xs
    {
      hide Stored;
      var i := 0;
      while i != |xs|
        invariant i <= |xs| && |items| == first + i
        invariant Stored(|ring|) && items == old(items) + xs[..i]
      {
        ConstructNext(first + i, xs[i], k);
        assert xs[..i + 1] == xs[..i] + [xs[i]];
        i := i + 1;
      }
      assert xs[..i] == xs;
    }

    /** Fills the blocks from `tailBlock` to `endBlock` with the items, one block at a time. */
    method Fill(xs: seq<T>, endBlock: nat, ghost k0: nat)
      requires Stored(|ring|) && tailIndex == |items| && k0 < |ring| == |bases| && blockSize > 0
      requires tailBlock == Some(ring[k0]) && endBlock == ring[|ring| - 1]
      requires bases[k0] <= tailIndex < bases[k0] + blockSize || (xs == [] && k0 == |ring| - 1)
      requires bases[|ring| - 1] < tailIndex + |xs| <= bases[|ring| - 1] + blockSize
      modifies `memory, `items, `tailBlock
      ensures Stored(|ring|) && tailBlock == Some(endBlock) && items == old(items) + xs
    {
      hide Stored;
      var newTailIndex := tailIndex + |xs|;
      var currentTailIndex := tailIndex;
      ghost var k := k0;
      while true
        invariant k < |ring| && tailIndex <= currentTailIndex <= newTailIndex && tailBlock == Some(ring[k])
        invariant |items| == currentTailIndex && items == old(items) + xs[..currentTailIndex - tailIndex]
        invariant Stored(|ring|)
        invariant bases[k] <= currentTailIndex < bases[k] + blockSize
          || (currentTailIndex == newTailIndex && k == |ring| - 1)
        decreases |ring| - k
      {
        ghost var from := currentTailIndex - tailIndex;
        currentTailIndex := FillToStop(xs, currentTailIndex, newTailIndex, k);
        TakeMore(old(items), xs, from, currentTailIndex - tailIndex);
        BlockFacts(k);
        if tailBlock == Some(endBlock) {
          assert k == |ring| - 1;
          break;
        }
        tailBlock := Some(memory[tailBlock.value].next);
        k := k + 1;
      }
      assert xs[..|xs|] == xs;
    }

    /** Fills the tail block up to its end or to the last item, whichever comes first. */
    method FillToStop(xs: seq<T>, currentTailIndex: nat, newTailIndex: nat, ghost k: nat) returns (stopIndex: nat)
      requires Stored(|ring|) && k < |ring| == |bases| && tailBlock == Some(ring[k]) && blockSize > 0
      requires newTailIndex == tailIndex + |xs| && tailIndex <= currentTailIndex <= newTailIndex
      requires currentTailIndex == |items|
      requires bases[k] <= currentTailIndex < bases[k] + blockSize
        || (currentTailIndex == newTailIndex && k == |ring| - 1)
      requires bases[|ring| - 1] < newTailIndex <= bases[|ring| - 1] + blockSize
      modifies `memory, `items
      ensures Stored(|ring|) && currentTailIndex <= stopIndex <= newTailIndex && |items| == stopIndex
      ensures items == old(items) + xs[currentTailIndex - tailIndex..stopIndex - tailIndex]
      ensures if k == |ring| - 1 then stopIndex == newTailIndex else stopIndex == bases[k + 1]
    {
      hide Stored, BlockBase, BasesOk;
      BlockFacts(k);
      var stop := BlockBase(currentTailIndex, blockSize) + blockSize;
      if newTailIndex < stop {
        stop := newTailIndex;
      }
      StopsInBlock(bases, k, blockSize, currentTailIndex, newTailIndex, stop);
      stopIndex := stop;
      FillBlock(xs[currentTailIndex - tailIndex..stopIndex - tailIndex], currentTailIndex, k);
    }

    lemma TakeMore(start: seq<T>, xs: seq<T>, i: nat, j: nat)
      requires i <= j <= |xs|
      ensures start + xs[..i] + xs[i..j] == start + xs[..j]
    {
      assert xs[..j] == xs[..i] + xs[i..j];
    }

    /**
     In the middle of a bulk enqueue that needs blocks from after `base` to `target`: they are there up
     to base `current`.  `n` of the blocks are still in use, and `first` is the first new one.
     */
    ghost predicate Ahead(n: nat, base: int, current: int, target: int, first: Option<nat>, startBlock: Option<nat>)
      reads this
    {
      && Linked(n) && |ring| == |bases| && tailIndex == |items| && blockSize > 1
      && Boundary(bases, n, tailIndex, blockSize)
      && base <= current <= target && current == LastBase(bases, blockSize)
      && current % blockSize == 0 && target % blockSize == 0
      && first == (if n == |ring| then None else Some(ring[n]))
      && (n > 0 ==> startBlock == Some(ring[n - 1]))
      && (n == |ring| <==> current == base)
    }

    /** One round of the loop that takes empty blocks from ahead. */
    method TakeAhead(ghost n: nat, ghost base: int, current: int, ghost target: int, first: Option<nat>,
                     ghost startBlock: Option<nat>) returns (first': Option<nat>)
      requires Ahead(n, base, current, target, first, startBlock) && current < target
      requires n > 0 && NextIsEmpty()
      modifies `tailBlock, `ring, `bases, `entries, `indexFront, `pos
      ensures Ahead(n - 1, base, current + blockSize, target, first', startBlock)
      ensures forall b :: b in ring ==> b in old(ring)
    {
      hide Linked, BasesOk, Boundary, NextIsEmpty;
      LinkedFacts(n);
      EmptyIsGone(n);
      BoundaryTurns(bases, n, tailIndex, blockSize, current + blockSize);
      BasesApart(current, target, blockSize);
      NewBaseIsAhead(n, tailIndex);
      Advance(n, current + blockSize);
      TailIsLast(n - 1);
      first' := if first == None then tailBlock else first;
    }

    lemma LinkedFacts(n: nat)
      requires Linked(n)
      ensures BasesOk(bases, blockSize) && |ring| == |bases| && n <= |ring|
      ensures ring != [] ==> indexRaw
    {}

    lemma TailIsLast(n: nat)
      requires Linked(n)
      ensures tailBlock == (if ring == [] then None else Some(ring[|ring| - 1]))
    {}

    lemma EmptyIsGone(n: nat)
      requires Linked(n) && n > 0 && NextIsEmpty()
      ensures |bases| > 0 && bases[0] + blockSize <= |items|
    {
      EmptyBlock(memory[ring[0]], bases[0], V(), blockSize);
      assert Gone(V(), bases[0] + blockSize - 1);
    }

    lemma NewBaseIsAhead(n: nat, tail: nat)
      requires blockSize > 0 && BasesOk(bases, blockSize) && Boundary(bases, n, tail, blockSize)
      ensures tail <= LastBase(bases, blockSize) + blockSize
    {}

    /** Takes the empty blocks ahead, until enough blocks are there or the next one is not empty. */
    method ReuseAhead(target: int, base: int) returns (current: int, first: Option<nat>, ghost n: nat)
      requires base <= target && Ahead(|ring|, base, base, target, None, tailBlock) && Published()
      modifies `tailBlock, `ring, `bases, `entries, `indexFront, `pos
      ensures Ahead(n, base, current, target, first, old(tailBlock))
      ensures base <= current <= target && (current == base ==> unchanged(this))
      ensures forall b :: b in ring ==> b in old(ring)
    {
      hide Ahead, IsEmpty, Published;
      current, first, n := base, None, |ring|;
      AheadFacts(n, base, current, target, first, tailBlock);
      while current < target && tailBlock.Some?
            && Some(memory[tailBlock.value].next) != first
            && IsEmpty(memory[memory[tailBlock.value].next])
        invariant Ahead(n, base, current, target, first, old(tailBlock))
        invariant base <= current <= target && (current == base ==> unchanged(this))
        invariant forall b :: b in ring ==> b in old(ring)
        invariant tailBlock.Some? ==>
          && tailBlock.value in memory && ring != [] && memory[tailBlock.value].next == ring[0] && ring[0] in memory
          && (first == Some(ring[0]) <==> n == 0)
        invariant blockSize > 0
        decreases target - current
      {
        first := TakeAhead(n, base, current, target, first, old(tailBlock));
        current := current + blockSize;
        n := n - 1;
        Distance(n, base, current, target, first, old(tailBlock));
        AheadFacts(n, base, current, target, first, old(tailBlock));
      }
    }

    lemma AheadFacts(n: nat, base: int, current: int, target: int, first: Option<nat>, startBlock: Option<nat>)
      requires Ahead(n, base, current, target, first, startBlock)
      ensures blockSize > 0
      ensures tailBlock.Some? ==>
        && tailBlock.value in memory && ring != [] && memory[tailBlock.value].next == ring[0] && ring[0] in memory
        && (first == Some(ring[0]) <==> n == 0)
    {
      StoreFacts(S(), V(), blockSize, n);
    }

    /** One round of the loop that takes blocks from the pool, once the index has room. */
    method TakeFromPool(ghost n: nat, ghost base: int, current: int, ghost target: int, first: Option<nat>,
                        ghost startBlock: Option<nat>, b: nat) returns (first': Option<nat>)
      requires Ahead(n, base, current, target, first, startBlock) && current < target
      requires b !in ring && indexRaw && slotsUsed < indexSize
      modifies `tailBlock, `memory, `slotsUsed, `ring, `bases, `entries, `indexFront, `pos
      ensures Ahead(n, base, current + blockSize, target, first', startBlock)
      ensures ring == old(ring) + [b]
    {
      hide Linked, BasesOk, Boundary;
      LinkedFacts(n);
      BoundaryGrows(bases, n, tailIndex, blockSize, current + blockSize);
      BasesApart(current, target, blockSize);
      Inject(n, current + blockSize, b);
      TailIsLast(n);
      first' := if first == None then tailBlock else first;
    }

    /** Makes room in the block index, exposing to consumers only what was there when the operation began. */
    method GrowForBulk(ghost n: nat, ghost base: int, ghost current: int, ghost target: int, ghost first: Option<nat>,
                       ghost startBlock: Option<nat>, expose: nat, gotMemory: bool) returns (ok: bool)
      requires Ahead(n, base, current, target, first, startBlock)
      modifies `indexRaw, `indexSize, `indexFront, `front, `entries, `pos
      ensures Ahead(n, base, current, target, first, startBlock) && ok == gotMemory
      ensures ok ==> indexRaw && slotsUsed < indexSize
    {
      hide StoreOk, WindowOk, BasesOk, Boundary;
      ok := NewBlockIndex(expose, gotMemory);
    }

    /** One more block, if the limits, the allocator of the index and the pool allow it. */
    method AllocateOne(ghost n: nat, ghost base: int, current: int, ghost target: int, first: Option<nat>,
                       ghost startBlock: Option<nat>, expose: nat, indexMemory: bool, pool: Option<nat>)
      returns (ok: bool, first': Option<nat>)
      requires Ahead(n, base, current, target, first, startBlock) && current < target
      requires pool.Some? ==> pool.value !in ring
      modifies `tailBlock, `memory, `slotsUsed, `ring, `bases,
               `indexRaw, `indexSize, `indexFront, `front, `entries, `pos
      ensures ok ==> Ahead(n, base, current + blockSize, target, first', startBlock)
      ensures ok ==> pool.Some? && ring == old(ring) + [pool.value]
      ensures old(!Full(current + blockSize)) && indexMemory && pool.Some? ==> ok
    {
      hide Ahead, Full;
      var full := Full(current + blockSize);
      var room := IndexHasRoom(n, base, current, target, first, startBlock);
      ok, first' := true, first;
      if !room || full {
        if full {
          ok := false;
        } else {
          ok := GrowForBulk(n, base, current, target, first, startBlock, expose, indexMemory);
        }
      }
      if !ok || pool == None {
        ok := false;
        return;
      }
      first' := TakeFromPool(n, base, current, target, first, startBlock, pool.value);
    }

    method IndexHasRoom(ghost n: nat, ghost base: int, ghost current: int, ghost target: int, ghost first: Option<nat>,
                        ghost startBlock: Option<nat>) returns (room: bool)
      requires Ahead(n, base, current, target, first, startBlock)
      ensures room ==> indexRaw && slotsUsed < indexSize
    {
      hide StoreOk, WindowOk, BasesOk, Boundary;
      room := !(!indexRaw || slotsUsed == indexSize);
    }

    /** Takes the blocks still missing from the pool. */
    method AllocateRest(ghost n: nat, ghost base: int, current0: int, target: int, first0: Option<nat>,
                        ghost startBlock: Option<nat>, expose: nat, indexMemory: bool, pool: seq<nat>)
      returns (ok: bool, first: Option<nat>)
      requires Ahead(n, base, current0, target, first0, startBlock)
      requires Distinct(pool) && forall b :: b in pool ==> b !in ring
      modifies `tailBlock, `memory, `slotsUsed, `ring, `bases,
               `indexRaw, `indexSize, `indexFront, `front, `entries, `pos
      ensures ok ==> Ahead(n, base, target, target, first, startBlock) && (first == None <==> target == base)
      ensures current0 == target ==> unchanged(this)
      ensures indexMemory && Ample(target, current0, |pool|) ==> ok
    {
      hide Ahead, Distinct, Full;
      var current, p := current0, 0;
      first, ok := first0, true;
      FreshFromPool(pool, 0, ring);
      Distance(n, base, current, target, first, startBlock);
      while current < target
        invariant Ahead(n, base, current, target, first, startBlock)
        invariant current0 == target ==> unchanged(this)
        invariant p <= |pool| && StillFresh(pool, p, ring)
        invariant ok && blockSize > 0 && current <= target && (current < target ==> current + blockSize <= target)
        invariant Ample(target, current0, |pool|) ==> Ample(target, current, |pool| - p)
        decreases target - current
      {
        AmpleIsEnough(target, current, |pool| - p);
        FreshFromPool(pool, p, ring);
        ok, first := AllocateOne(n, base, current, target, first, startBlock, expose, indexMemory,
                                 if p < |pool| then Some(pool[p]) else None);
        if !ok {
          return;
        }
        current, p := current + blockSize, p + 1;
        Distance(n, base, current, target, first, startBlock);
      }
      AheadEnds(n, base, current, target, first, startBlock);
    }

    lemma AheadEnds(n: nat, base: int, current: int, target: int, first: Option<nat>, startBlock: Option<nat>)
      requires Ahead(n, base, current, target, first, startBlock) && current >= target
      ensures current == target && (first == None <==> target == base)
    {}

    /** The blocks in the pool from `p` on do not belong to the ring. */
    ghost predicate StillFresh(pool: seq<nat>, p: nat, ring: seq<nat>)
    {
      Distinct(pool) && forall k :: p <= k < |pool| ==> pool[k] !in ring
    }

    lemma FreshFromPool(pool: seq<nat>, p: nat, ring: seq<nat>)
      requires (p == 0 && Distinct(pool) && forall b :: b in pool ==> b !in ring) || StillFresh(pool, p, ring)
      ensures StillFresh(pool, p, ring)
      ensures p < |pool| ==> pool[p] !in ring && StillFresh(pool, p + 1, ring + [pool[p]])
    {}

    /** Neither the leeway before the head nor the pool runs out before the blocks up to `target` are there. */
    ghost predicate Ample(target: int, current: int, blocks: int)
      reads `headIndex
    {
      !Full(target) && target - current <= blocks * blockSize
    }

    /** Neither runs out for `count` more items. */
    ghost predicate AmpleFor(count: nat, blocks: nat)
      reads `headIndex, `tailIndex
    {
      blockSize > 0 && !Full(BlockBase(tailIndex + count - 1, blockSize)) && count + blockSize - 1 <= blocks * blockSize
    }

    lemma AmpleIsEnough(target: int, current: int, blocks: nat)
      requires blockSize > 0 && current + blockSize <= target
      ensures Ample(target, current, blocks) ==>
        blocks > 0 && !Full(current + blockSize) && Ample(target, current + blockSize, blocks - 1)
    {
      assert (blocks - 1) * blockSize == blocks * blockSize - blockSize;
      if blocks == 0 { assert blocks * blockSize == 0; }
    }

    lemma Distance(n: nat, base: int, current: int, target: int, first: Option<nat>, startBlock: Option<nat>)
      requires Ahead(n, base, current, target, first, startBlock)
      ensures blockSize > 0 && current <= target && (current < target ==> current + blockSize <= target)
    {
      BasesApart(current, target, blockSize);
    }

    /**
     Enqueues several items at once.  When it succeeds, the queue holds what it would hold had the
     items been enqueued one by one, in order; it does succeed when memory and limits allow for the
     blocks it needs.  Of a failed bulk enqueue nothing is claimed.
     */
    method EnqueueBulk(xs: seq<T>, indexMemory: bool, pool: seq<nat>) returns (ok: bool)
      requires Valid()
      requires Distinct(pool) && forall b :: b in pool ==> b !in ring
      modifies this
      ensures ok ==> Valid()
      ensures items == old(items) + (if ok then xs else [])
      ensures headIndex == old(headIndex) && pending == old(pending)
      ensures indexMemory && old(AmpleFor(|xs|, |pool|)) ==> ok
    {
      hide Valid, Ahead, Distinct, Published, BlockBase, Full;
      StartFacts(|xs|);
      var startTailIndex, startBlock := tailIndex, tailBlock;
      var originalBlockIndexFront, originalBlockIndexSlotsUsed := indexFront, slotsUsed;
      var target := BlockBase(startTailIndex + |xs| - 1, blockSize);
      var base := BlockBase(startTailIndex - 1, blockSize);
      var current, first, n := ReuseAhead(target, base);
      ok, first := AllocateRest(n, base, current, target, first, startBlock,
                                originalBlockIndexSlotsUsed, indexMemory, pool);
      if !ok {
        indexFront := originalBlockIndexFront;
        slotsUsed := originalBlockIndexSlotsUsed;
        tailBlock := if startBlock == None then first else startBlock;
        return;
      }
      Finish(xs, n, base, target, first, startBlock);
    }

    lemma StartShape()
      requires Valid()
      ensures BasesOk(bases, blockSize) && |ring| == |bases| && LastBase(bases, blockSize) % blockSize == 0
    {
      hide WindowOk, RingOk, Filled, ViewOk;
      RemainderIsUnique(0 - blockSize, -1, 0, blockSize);
    }

    lemma StartFacts(count: nat)
      requires Valid()
      ensures var target, base := BlockBase(tailIndex + count - 1, blockSize), BlockBase(tailIndex - 1, blockSize);
        && blockSize > 0 && base <= target && Ahead(|ring|, base, base, target, None, tailBlock) && Published()
        && target <= tailIndex + count - 1 && tailIndex - 1 < base + blockSize && headIndex <= |items|
    {
      hide StoreOk, IndexOk, BasesOk, BlockBase, Boundary;
      StartShape();
      StartOfBulk(bases, tailIndex, blockSize);
      BaseOfBase(tailIndex + count - 1, blockSize);
      BaseOfBase(tailIndex - 1, blockSize);
      BaseOrder(tailIndex - 1, tailIndex + count - 1, blockSize);
    }

    /** With all blocks there: resets the new ones, publishes them, fills them, and publishes the items. */
    method Finish(xs: seq<T>, ghost n: nat, ghost base: int, ghost target: int, first: Option<nat>,
                  startBlock: Option<nat>)
      requires Ahead(n, base, target, target, first, startBlock) && headIndex <= |items|
      requires first == None ==> Published()
      requires base == BlockBase(tailIndex - 1, blockSize) && target == BlockBase(tailIndex + |xs| - 1, blockSize)
      modifies `memory, `front, `tailBlock, `items, `tailIndex
      ensures Valid() && items == old(items) + xs
    {
      hide Linked, BasesOk, Boundary;
      LinkedFacts(n);
      TailIsLast(n);
      FillRange(bases, n, tailIndex, |xs|, blockSize);
      if first.Some? {
        ResetSpares(n, first.value);
        PublishFront();
      }
      if tailBlock == None {
        StayEmpty();
        assert items + xs == items;
        return;
      }
      var atFirst := AtBoundary() && first.Some?;
      FillFrom(xs, if atFirst then first else startBlock, if atFirst then n else n - 1);
    }

    lemma StayEmpty()
      requires Linked(|ring|) && tailIndex == |items| && headIndex <= |items| && tailBlock == None && tailIndex == 0
      ensures Valid()
    {}

    /** Fills the blocks from `start` to the tail block, and publishes the items. */
    method FillFrom(xs: seq<T>, start: Option<nat>, ghost k: nat)
      requires Linked(|ring|) && Published() && tailIndex == |items| && headIndex <= |items| && blockSize > 0
      requires k < |ring| == |bases| && start == Some(ring[k])
      requires bases[k] <= tailIndex < bases[k] + blockSize || (xs == [] && k == |ring| - 1)
      requires bases[|ring| - 1] < tailIndex + |xs| <= bases[|ring| - 1] + blockSize
      modifies `memory, `items, `tailBlock, `tailIndex
      ensures Valid() && items == old(items) + xs
    {
      hide Stored, Published;
      var endBlock := tailBlock.value;
      tailBlock := start;
      Fill(xs, endBlock, k);
      tailIndex := tailIndex + |xs|;
    }
  }
}
