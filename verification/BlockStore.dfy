/**
 The circular list of blocks of one explicit producer, and the circular index of those blocks, as
 values: what they must satisfy, and what each way of changing them keeps.
 */
module BlockStore {
  import opened CircularIndex
  import opened Sequences

  /** A place for an element in a block: raw storage, or a constructed element. */
  datatype Cell<T> = Raw | Built(value: T)

  datatype Block<T> = Block(next: nat, cells: seq<Cell<T>>, emptyFlags: seq<bool>)

  datatype Entry = Entry(base: nat, block: nat)

  /**
   The blocks in memory, by address; the addresses of the ring, from the oldest block around to the
   newest; and for each block of the ring the index of its first item.
   */
  datatype Store<T> = Store(ring: seq<nat>, bases: seq<nat>, memory: map<nat, Block<T>>)

  /** What consumers can know of the queue: the items ever enqueued, and how far they have been taken. */
  datatype View<T> = View(items: seq<T>, head: nat, pending: set<nat>)

  // ----- arithmetic

  /** The base of the block of an index is the multiple of the block size at most one block below it. */
  lemma BaseIsUnique(base: int, i: int, b: int)
    requires b > 0 && base % b == 0 && base <= i < base + b
    ensures i % b == i - base && BlockBase(i, b) == base
  {
    assert i == base / b * b + (i - base);
    RemainderIsUnique(i, base / b, i - base, b);
  }

  lemma NextBase(base: int, b: int)
    requires b > 0 && base % b == 0
    ensures (base + b) % b == 0
  {
    RemainderOfShift(base, 1, b);
  }

  lemma BaseOfBase(i: int, size: int)
    requires size > 0
    ensures BlockBase(i, size) % size == 0
    ensures i - size < BlockBase(i, size) <= i
  {
    assert i == i / size * size + i % size;
    RemainderIsUnique(BlockBase(i, size), i / size, 0, size);
  }

  /** Two block bases that differ are at least one block apart. */
  lemma BasesApart(a: int, b: int, size: int)
    requires size > 0 && a % size == 0 && b % size == 0
    ensures a < b ==> a + size <= b
    ensures (a + size) % size == 0
  {
    assert b - a == (b / size - a / size) * size;
    ProductAtLeast(b / size - a / size, size);
    RemainderOfShift(a, 1, size);
  }

  lemma BaseOrder(a: int, b: int, size: int)
    requires size > 0 && a <= b
    ensures BlockBase(a, size) <= BlockBase(b, size)
  {
    BaseOfBase(a, size);
    BaseOfBase(b, size);
    BasesApart(BlockBase(b, size), BlockBase(a, size), size);
  }

  /** The indices `first .. first + count`. */
  function Range(first: nat, count: nat): (r: set<nat>)
    ensures forall i :: i in r <==> first <= i < first + count
  {
    if count == 0 then {} else Range(first, count - 1) + {first + count - 1}
  }

  // ----- blocks

  /** The item has been enqueued and not yet moved out. */
  ghost predicate Live<T>(v: View<T>, i: nat)
  {
    i < |v.items| && (v.head <= i || i in v.pending)
  }

  /** The item has been enqueued and moved out. */
  ghost predicate Gone<T>(v: View<T>, i: nat)
  {
    i < |v.items| && !Live(v, i)
  }

  /** Element `o` of a block whose first index is `base` holds its item, and its flag says whether that is gone. */
  ghost predicate CellOk<T>(block: Block<T>, o: nat, base: nat, v: View<T>)
    requires o < |block.cells| == |block.emptyFlags|
  {
    var i := base + o;
    && block.cells[o] == (if Live(v, i) then Built(v.items[i]) else Raw)
    && (block.emptyFlags[|block.cells| - 1 - o] <==> Gone(v, i))
  }

  ghost predicate BlockOk<T>(block: Block<T>, base: nat, v: View<T>, size: nat)
  {
    && |block.cells| == |block.emptyFlags| == size
    && forall o :: 0 <= o < size ==> CellOk(block, o, base, v)
  }

  /** The item with index `k` sits in its place in a block whose first index is `base`. */
  ghost predicate HasItem<T>(block: Block<T>, k: nat, base: nat, v: View<T>)
  {
    base <= k < |v.items| && k - base < |block.cells| && block.cells[k - base] == Built(v.items[k])
  }

  /** No element, and all flags up. */
  predicate Spare<T>(block: Block<T>, size: nat)
  {
    && |block.cells| == |block.emptyFlags| == size
    && forall o :: 0 <= o < size ==> block.cells[o].Raw? && block.emptyFlags[o]
  }

  /** `is_empty`: all flags are up. */
  predicate IsEmpty<T>(block: Block<T>)
  {
    forall o :: 0 <= o < |block.emptyFlags| ==> block.emptyFlags[o]
  }

  /** `set_all_empty` on a block without elements. */
  function AllEmpty<T>(next: nat, size: nat): (block: Block<T>)
    ensures Spare(block, size)
  {
    Block(next, seq(size, _ => Raw), seq(size, _ => true))
  }

  /** `reset_empty`: lowers all the flags. */
  function Reset<T>(block: Block<T>): Block<T>
  {
    block.(emptyFlags := seq(|block.emptyFlags|, _ => false))
  }

  /** Constructs an element. */
  function Construct<T>(block: Block<T>, o: nat, x: T): Block<T>
    requires o < |block.cells|
  {
    block.(cells := block.cells[o := Built(x)])
  }

  /** Destroys `n` elements from `o` on, and raises their flags, which are kept in reverse order. */
  function Destroy<T>(block: Block<T>, o: nat, n: nat): Block<T>
  {
    var size := |block.emptyFlags|;
    block.(
      cells := seq(|block.cells|, k requires 0 <= k < |block.cells| =>
        if o <= k < o + n then Raw else block.cells[k]),
      emptyFlags := seq(size, p requires 0 <= p < size =>
        o <= size - 1 - p < o + n || block.emptyFlags[p]))
  }

  /** All the items of a block whose flags are all up are gone. */
  lemma EmptyBlock<T>(block: Block<T>, base: nat, v: View<T>, size: nat)
    requires BlockOk(block, base, v, size) && IsEmpty(block)
    ensures Spare(block, size)
    ensures forall i :: base <= i < base + size ==> Gone(v, i)
  {
    forall i | base <= i < base + size ensures Gone(v, i) {
      assert CellOk(block, i - base, base, v);
      assert block.emptyFlags[size - 1 - (i - base)];
    }
    forall o | 0 <= o < size ensures block.cells[o].Raw? {
      assert CellOk(block, o, base, v);
      assert block.emptyFlags[size - 1 - o];
    }
  }

  /** A spare block, once reset, is ready for the items from `|v.items|` on. */
  lemma ResetIsFresh<T>(block: Block<T>, base: nat, v: View<T>, size: nat)
    requires Spare(block, size) && |v.items| <= base
    ensures BlockOk(Reset(block), base, v, size)
  {}

  /** What a block holds does not depend on where it points. */
  lemma SameCells<T>(block: Block<T>, next: nat, base: nat, v: View<T>, size: nat)
    requires BlockOk(block, base, v, size)
    ensures BlockOk(block.(next := next), base, v, size)
  {
    var block' := block.(next := next);
    forall o | 0 <= o < size ensures CellOk(block', o, base, v) {
      assert CellOk(block, o, base, v);
    }
  }

  // ----- the ring

  ghost predicate RingOk<T>(ring: seq<nat>, memory: map<nat, Block<T>>)
  {
    && Distinct(ring)
    && (forall j :: 0 <= j < |ring| ==> ring[j] in memory)
    && (forall j :: 0 <= j < |ring| - 1 ==> memory[ring[j]].next == ring[j + 1])
    && (ring != [] ==> memory[ring[|ring| - 1]].next == ring[0])
  }

  predicate BasesOk(bases: seq<nat>, size: nat)
    requires size > 0
  {
    && (forall j :: 0 <= j < |bases| ==> bases[j] % size == 0)
    && (forall j :: 0 <= j < |bases| - 1 ==> bases[j + 1] == bases[j] + size)
    && (forall j, k :: 0 <= j < k < |bases| ==> bases[j] + size <= bases[k])
  }

  /** The first `n` blocks of the ring hold what they should; the others are spare. */
  ghost predicate Filled<T>(s: Store<T>, v: View<T>, size: nat, n: nat)
  {
    && |s.ring| == |s.bases| && n <= |s.ring|
    && (forall j :: 0 <= j < n ==> s.ring[j] in s.memory && BlockOk(s.memory[s.ring[j]], s.bases[j], v, size))
    && (forall j :: n <= j < |s.ring| ==> s.ring[j] in s.memory && Spare(s.memory[s.ring[j]], size))
  }

  ghost predicate ViewOk<T>(v: View<T>, bases: seq<nat>)
  {
    && v.head <= |v.items|
    && (forall i :: i in v.pending ==> i < v.head)
    && (forall i :: Live(v, i) ==> bases != [] && bases[0] <= i)
  }

  ghost predicate StoreOk<T>(s: Store<T>, v: View<T>, size: nat, n: nat)
  {
    && size > 0
    && ViewOk(v, s.bases) && BasesOk(s.bases, size) && RingOk(s.ring, s.memory)
    && Filled(s, v, size, n)
  }

  /** `head` is within the items, and from the newest block one gets back to the oldest. */
  lemma StoreFacts<T>(s: Store<T>, v: View<T>, size: nat, n: nat)
    requires StoreOk(s, v, size, n)
    ensures |s.ring| == |s.bases| && n <= |s.ring| && v.head <= |v.items|
    ensures forall b :: b in s.ring ==> b in s.memory
    ensures forall j :: 0 <= j < |s.ring| ==> |s.memory[s.ring[j]].cells| == |s.memory[s.ring[j]].emptyFlags| == size
    ensures s.ring != [] ==> s.memory[s.ring[|s.ring| - 1]].next == s.ring[0]
    ensures forall j :: 0 <= j < |s.ring| - 1 ==> s.memory[s.ring[j]].next == s.ring[j + 1]
    ensures forall j, k :: 0 <= j < |s.ring| && 0 <= k < |s.ring| && s.ring[j] == s.ring[k] ==> j == k
    ensures BasesOk(s.bases, size)
  {
    forall j | 0 <= j < |s.ring|
      ensures |s.memory[s.ring[j]].cells| == |s.memory[s.ring[j]].emptyFlags| == size
    {
      if j < n { assert BlockOk(s.memory[s.ring[j]], s.bases[j], v, size); }
    }
  }

  function Rotate<A>(s: seq<A>, a: A): seq<A>
    requires s != []
  {
    s[1..] + [a]
  }

  /** The oldest block becomes the newest, for the items from `next` on. */
  function Turn<T>(s: Store<T>, next: nat): Store<T>
    requires s.ring != [] && s.bases != []
  {
    Store(Rotate(s.ring, s.ring[0]), Rotate(s.bases, next), s.memory)
  }

  /** Block `b` becomes the newest, linked in between the newest and the oldest. */
  function Insert<T>(s: Store<T>, b: nat, block: Block<T>, next: nat): Store<T>
    requires s.ring != [] ==> s.ring[|s.ring| - 1] in s.memory
  {
    if s.ring == [] then
      Store([b], s.bases + [next], s.memory[b := block.(next := b)])
    else
      var tail := s.ring[|s.ring| - 1];
      Store(s.ring + [b], s.bases + [next],
            s.memory[tail := s.memory[tail].(next := b)][b := block.(next := s.memory[tail].next)])
  }

  function Change<T>(s: Store<T>, b: nat, block: Block<T>): Store<T>
  {
    s.(memory := s.memory[b := block])
  }

  lemma RotateRing<T>(ring: seq<nat>, memory: map<nat, Block<T>>)
    requires RingOk(ring, memory) && ring != []
    ensures RingOk(Rotate(ring, ring[0]), memory)
  {
    var ring' := Rotate(ring, ring[0]);
    forall j | 0 <= j < |ring'| - 1 ensures memory[ring'[j]].next == ring'[j + 1] {
      if j < |ring| - 2 { assert memory[ring[j + 1]].next == ring[j + 2]; }
    }
  }

  lemma ExtendBases(bases: seq<nat>, next: nat, size: nat)
    requires size > 0 && BasesOk(bases, size) && next % size == 0
    requires bases != [] ==> next == bases[|bases| - 1] + size
    ensures BasesOk(bases + [next], size)
    ensures BasesOk((bases + [next])[1..], size)
  {
    var bases' := bases + [next];
    forall j, k | 0 <= j < k < |bases'| ensures bases'[j] + size <= bases'[k] {
      if k == |bases| && j < |bases| - 1 { assert bases[j] + size <= bases[|bases| - 1]; }
    }
  }

  /** The oldest block has no live item, so it can leave that end of the ring. */
  lemma RotateView<T>(v: View<T>, bases: seq<nat>, next: nat, size: nat)
    requires size > 0 && ViewOk(v, bases) && BasesOk(bases, size) && bases != []
    requires next == bases[|bases| - 1] + size && |v.items| <= next
    requires forall i :: bases[0] <= i < bases[0] + size ==> Gone(v, i)
    ensures ViewOk(v, Rotate(bases, next))
  {
    var bases' := Rotate(bases, next);
    forall i | Live(v, i) ensures bases'[0] <= i {
      assert !Gone(v, i);
      if |bases| > 1 { assert bases[1] == bases[0] + size; }
    }
  }

  /** The base of the newest block, or of the block before the first one. */
  function LastBase(bases: seq<nat>, size: nat): int
  {
    if bases == [] then 0 - size else bases[|bases| - 1]
  }

  /** The oldest block, once emptied, turns to the other end of the ring as a spare. */
  lemma TurnKeepsStore<T>(s: Store<T>, v: View<T>, size: nat, n: nat, next: nat)
    requires StoreOk(s, v, size, n) && 0 < n && s.ring[0] in s.memory && IsEmpty(s.memory[s.ring[0]])
    requires next == LastBase(s.bases, size) + size && |v.items| <= next
    ensures StoreOk(Turn(s, next), v, size, n - 1)
    ensures s.bases[0] + size <= |v.items|
  {
    EmptyBlock(s.memory[s.ring[0]], s.bases[0], v, size);
    assert Gone(v, s.bases[0] + size - 1);
    RotateView(v, s.bases, next, size);
    NextBase(s.bases[|s.bases| - 1], size);
    ExtendBases(s.bases, next, size);
    RotateRing(s.ring, s.memory);
    TurnKeepsFilled(s, v, size, n, next);
  }

  lemma TurnKeepsFilled<T>(s: Store<T>, v: View<T>, size: nat, n: nat, next: nat)
    requires Filled(s, v, size, n) && 0 < n && Spare(s.memory[s.ring[0]], size)
    ensures Filled(Turn(s, next), v, size, n - 1)
  {
    var s' := Turn(s, next);
    forall j | 0 <= j < n - 1
      ensures s'.ring[j] in s'.memory && BlockOk(s'.memory[s'.ring[j]], s'.bases[j], v, size)
    {
      assert BlockOk(s.memory[s.ring[j + 1]], s.bases[j + 1], v, size);
    }
  }

  /** Resetting the first spare block puts it in use. */
  lemma ResetKeepsStore<T>(s: Store<T>, v: View<T>, size: nat, n: nat)
    requires StoreOk(s, v, size, n) && n < |s.ring| && s.ring[n] in s.memory && |v.items| <= s.bases[n]
    ensures StoreOk(Change(s, s.ring[n], Reset(s.memory[s.ring[n]])), v, size, n + 1)
  {
    ResetIsFresh(s.memory[s.ring[n]], s.bases[n], v, size);
  }

  /** A block from elsewhere joins the ring as its newest. */
  lemma InsertKeepsStore<T>(s: Store<T>, v: View<T>, size: nat, n: nat, b: nat, block: Block<T>, next: nat)
    requires StoreOk(s, v, size, n) && b !in s.ring && Spare(block, size)
    requires s.ring != [] ==> s.ring[|s.ring| - 1] in s.memory
    requires next == LastBase(s.bases, size) + size
    ensures StoreOk(Insert(s, b, block, next), v, size, n)
  {
    if s.ring == [] {
      RemainderIsUnique(0, 0, 0, size);
    } else {
      NextBase(s.bases[|s.bases| - 1], size);
    }
    ExtendBases(s.bases, next, size);
    InsertRing(s, b, block, next);
    InsertKeepsFilled(s, v, size, n, b, block, next);
  }

  lemma InsertRing<T>(s: Store<T>, b: nat, block: Block<T>, next: nat)
    requires RingOk(s.ring, s.memory) && b !in s.ring
    ensures var s' := Insert(s, b, block, next); RingOk(s'.ring, s'.memory)
  {
    var s' := Insert(s, b, block, next);
    forall j | 0 <= j < |s'.ring| - 1 ensures s'.memory[s'.ring[j]].next == s'.ring[j + 1] {
      if j < |s.ring| - 1 { assert s.ring[j] != s.ring[|s.ring| - 1]; }
    }
  }

  lemma InsertKeepsFilled<T>(s: Store<T>, v: View<T>, size: nat, n: nat, b: nat, block: Block<T>, next: nat)
    requires RingOk(s.ring, s.memory) && b !in s.ring && Filled(s, v, size, n) && Spare(block, size)
    ensures Filled(Insert(s, b, block, next), v, size, n)
  {
    var s' := Insert(s, b, block, next);
    forall j | 0 <= j < n
      ensures s'.ring[j] in s'.memory && BlockOk(s'.memory[s'.ring[j]], s'.bases[j], v, size)
    {
      SameCells(s.memory[s.ring[j]], b, s.bases[j], v, size);
    }
  }

  // ----- the blocks of a bulk enqueue

  /** The first `n` blocks end with the tail index, and the others start right after them. */
  predicate Boundary(bases: seq<nat>, n: nat, tail: nat, size: nat)
  {
    && n <= |bases|
    && (n > 0 ==> bases[n - 1] < tail <= bases[n - 1] + size)
    && (bases == [] ==> tail == 0)
    && (n == 0 && bases != [] ==> bases[0] == tail)
    && (n < |bases| ==> tail <= bases[n])
  }

  lemma BoundaryTurns(bases: seq<nat>, n: nat, tail: nat, size: nat, base: nat)
    requires size > 0 && BasesOk(bases, size) && Boundary(bases, n, tail, size) && n > 0
    requires base == LastBase(bases, size) + size && bases[0] + size <= tail
    ensures Boundary(Rotate(bases, base), n - 1, tail, size)
  {
    assert forall j :: 0 <= j < |bases| - 1 ==> Rotate(bases, base)[j] == bases[j + 1];
  }

  lemma BoundaryGrows(bases: seq<nat>, n: nat, tail: nat, size: nat, base: nat)
    requires size > 0 && BasesOk(bases, size) && Boundary(bases, n, tail, size)
    requires base == LastBase(bases, size) + size
    ensures Boundary(bases + [base], n, tail, size)
    ensures tail <= base
  {}

  /** Where a bulk enqueue starts: the block of the item before the next one is the newest. */
  lemma StartOfBulk(bases: seq<nat>, tail: nat, size: nat)
    requires size > 0 && BasesOk(bases, size)
    requires if bases == [] then tail == 0 else bases[|bases| - 1] < tail <= bases[|bases| - 1] + size
    ensures Boundary(bases, |bases|, tail, size)
    ensures BlockBase(tail - 1, size) == LastBase(bases, size)
  {
    if bases == [] {
      RemainderIsUnique(-1, -1, size - 1, size);
    } else {
      BaseIsUnique(bases[|bases| - 1], tail - 1, size);
    }
  }

  /** The next stop is the end of the block or of the items, whichever comes first. */
  lemma StopsInBlock(bases: seq<nat>, k: nat, size: nat, current: nat, newTail: nat, stop: int)
    requires size > 0 && k < |bases| && BasesOk(bases, size)
    requires bases[k] <= current < bases[k] + size || (current == newTail && k == |bases| - 1)
    requires current <= newTail && bases[|bases| - 1] < newTail <= bases[|bases| - 1] + size
    requires var end := BlockBase(current, size) + size; stop == if newTail < end then newTail else end
    ensures current <= stop <= newTail
    ensures current < stop ==> bases[k] <= current && stop <= bases[k] + size
    ensures k == |bases| - 1 ==> stop == newTail
    ensures k < |bases| - 1 ==> stop == bases[k + 1]
  {
    BaseOfBase(current, size);
    if bases[k] <= current < bases[k] + size {
      BaseIsUnique(bases[k], current, size);
    }
    if k < |bases| - 1 {
      assert bases[k] + size <= bases[|bases| - 1];
    }
  }

  /** Where a bulk enqueue of `count` items starts to fill the blocks, `n` of which were in use, and where it ends. */
  lemma FillRange(bases: seq<nat>, n: nat, tail: nat, count: nat, size: nat)
    requires size > 0 && BasesOk(bases, size) && Boundary(bases, n, tail, size)
    requires LastBase(bases, size) == BlockBase(tail + count - 1, size)
    requires n == |bases| <==> BlockBase(tail - 1, size) == BlockBase(tail + count - 1, size)
    ensures bases == [] ==> count == 0
    ensures bases != [] ==> bases[|bases| - 1] < tail + count <= bases[|bases| - 1] + size
    ensures n < |bases| && tail % size == 0 ==> bases[n] == tail
    ensures bases != [] && !(n < |bases| && tail % size == 0) ==>
      n > 0 && (bases[n - 1] <= tail < bases[n - 1] + size || (count == 0 && n == |bases|))
  {
    BaseOfBase(tail + count - 1, size);
    BaseOfBase(tail - 1, size);
    if n > 0 {
      if tail < bases[n - 1] + size {
        BaseIsUnique(bases[n - 1], tail, size);
      } else {
        BaseIsUnique(bases[n - 1], tail - 1, size);
      }
    }
    assert bases != [] ==> bases[0] % size == 0;
  }

  // ----- items come and go

  /** Two views in which the same items are live. */
  lemma SameLiveItems<T>(s: Store<T>, v: View<T>, v': View<T>, size: nat, n: nat)
    requires StoreOk(s, v, size, n) && v.items == v'.items && v'.head <= |v'.items|
    requires forall i :: i in v'.pending ==> i < v'.head
    requires forall i :: Live(v', i) <==> Live(v, i)
    ensures StoreOk(s, v', size, n)
  {
    forall j | 0 <= j < n ensures BlockOk(s.memory[s.ring[j]], s.bases[j], v', size) {
      forall o | 0 <= o < size ensures CellOk(s.memory[s.ring[j]], o, s.bases[j], v') {
        assert CellOk(s.memory[s.ring[j]], o, s.bases[j], v);
      }
    }
  }

  /** The view once a consumer has taken the next `count` indices. */
  function Claimed<T>(v: View<T>, count: nat): View<T>
  {
    v.(head := v.head + count, pending := v.pending + Range(v.head, count))
  }

  /** The view once a consumer has destroyed the items `i .. i + count`. */
  function Released<T>(v: View<T>, i: nat, count: nat): View<T>
  {
    v.(pending := v.pending - Range(i, count))
  }

  lemma ClaimKeepsStore<T>(s: Store<T>, v: View<T>, size: nat, count: nat)
    requires StoreOk(s, v, size, |s.ring|) && v.head + count <= |v.items|
    ensures StoreOk(s, Claimed(v, count), size, |s.ring|)
  {
    SameLiveItems(s, v, Claimed(v, count), size, |s.ring|);
  }

  /** Constructs the next item in its place, in block `j`. */
  lemma ConstructKeepsStore<T>(s: Store<T>, v: View<T>, size: nat, n: nat, j: nat, x: T)
    requires StoreOk(s, v, size, n) && j < n && s.ring[j] in s.memory && |s.memory[s.ring[j]].cells| == size
    requires s.bases[j] <= |v.items| < s.bases[j] + size
    ensures StoreOk(Change(s, s.ring[j], Construct(s.memory[s.ring[j]], |v.items| - s.bases[j], x)),
                    v.(items := v.items + [x]), size, n)
  {
    var v' := v.(items := v.items + [x]);
    forall i: nat | Live(v', i) ensures s.bases[0] <= i {
      if i < |v.items| { assert Live(v, i); }
    }
    ConstructKeepsFilled(s, v, size, n, j, x);
  }

  lemma ConstructKeepsFilled<T>(s: Store<T>, v: View<T>, size: nat, n: nat, j: nat, x: T)
    requires StoreOk(s, v, size, n) && j < n && s.ring[j] in s.memory && |s.memory[s.ring[j]].cells| == size
    requires s.bases[j] <= |v.items| < s.bases[j] + size
    ensures Filled(Change(s, s.ring[j], Construct(s.memory[s.ring[j]], |v.items| - s.bases[j], x)),
                   v.(items := v.items + [x]), size, n)
  {
    var v' := v.(items := v.items + [x]);
    var s' := Change(s, s.ring[j], Construct(s.memory[s.ring[j]], |v.items| - s.bases[j], x));
    forall k | 0 <= k < n ensures BlockOk(s'.memory[s'.ring[k]], s'.bases[k], v', size) {
      forall o | 0 <= o < size ensures CellOk(s'.memory[s'.ring[k]], o, s'.bases[k], v') {
        assert CellOk(s.memory[s.ring[k]], o, s.bases[k], v);
        assert Live(v', s.bases[k] + o) <==> s.bases[k] + o == |v.items| || Live(v, s.bases[k] + o);
      }
    }
  }

  /** Moving out and destroying the claimed items `i .. i + count`, all in block `j`, keeps the store in order. */
  lemma DestroyKeepsStore<T>(s: Store<T>, v: View<T>, v': View<T>, size: nat, j: nat, i: nat, count: nat)
    requires StoreOk(s, v, size, |s.ring|) && j < |s.ring| && s.ring[j] in s.memory
    requires s.bases[j] <= i && i + count <= s.bases[j] + size
    requires forall k :: i <= k < i + count ==> k in v.pending
    requires v'.items == v.items && v'.head == v.head
    requires forall k :: k in v'.pending <==> k in v.pending && !(i <= k < i + count)
    ensures StoreOk(Change(s, s.ring[j], Destroy(s.memory[s.ring[j]], i - s.bases[j], count)), v', size, |s.ring|)
    ensures |s.memory[s.ring[j]].cells| == size
    ensures forall k :: i <= k < i + count ==> HasItem(s.memory[s.ring[j]], k, s.bases[j], v)
  {
    assert BlockOk(s.memory[s.ring[j]], s.bases[j], v, size);
    forall k | i <= k < i + count
      ensures HasItem(s.memory[s.ring[j]], k, s.bases[j], v)
    {
      assert k in v.pending;
      assert CellOk(s.memory[s.ring[j]], k - s.bases[j], s.bases[j], v);
    }
    forall k: nat | Live(v', k) ensures s.bases[0] <= k {
      assert Live(v, k);
    }
    DestroyKeepsFilled(s, v, v', size, j, i, count);
  }

  lemma DestroyKeepsFilled<T>(s: Store<T>, v: View<T>, v': View<T>, size: nat, j: nat, i: nat, count: nat)
    requires StoreOk(s, v, size, |s.ring|) && j < |s.ring| && s.ring[j] in s.memory
    requires s.bases[j] <= i && i + count <= s.bases[j] + size
    requires forall k :: i <= k < i + count ==> k in v.pending
    requires v'.items == v.items && v'.head == v.head
    requires forall k :: k in v'.pending <==> k in v.pending && !(i <= k < i + count)
    ensures Filled(Change(s, s.ring[j], Destroy(s.memory[s.ring[j]], i - s.bases[j], count)), v', size, |s.ring|)
  {
    var s' := Change(s, s.ring[j], Destroy(s.memory[s.ring[j]], i - s.bases[j], count));
    forall k | 0 <= k < |s.ring| ensures BlockOk(s'.memory[s'.ring[k]], s'.bases[k], v', size) {
      forall o | 0 <= o < size ensures CellOk(s'.memory[s'.ring[k]], o, s'.bases[k], v') {
        assert CellOk(s.memory[s.ring[k]], o, s.bases[k], v);
        var m := s.bases[k] + o;
        assert k == j || !(i <= m < i + count);
        assert i <= m < i + count ==> m in v.pending && m < v.head;
        assert Live(v', m) <==> Live(v, m) && !(i <= m < i + count);
      }
    }
  }

  /** Every index from the oldest base up to the end of block `n - 1` lies in one block. */
  lemma {:induction false} BlockOf(bases: seq<nat>, size: nat, i: nat, n: nat) returns (j: nat)
    requires size > 0 && BasesOk(bases, size) && 0 < n <= |bases|
    requires bases[0] <= i < bases[n - 1] + size
    ensures j < n && bases[j] <= i < bases[j] + size
  {
    if bases[n - 1] <= i {
      j := n - 1;
    } else {
      assert bases[n - 2 + 1] == bases[n - 2] + size;
      j := BlockOf(bases, size, i, n - 1);
    }
  }

  /** The block that starts where block `j` ends is the next one. */
  lemma NextIsAfter(bases: seq<nat>, size: nat, j: nat, k: nat)
    requires size > 0 && BasesOk(bases, size) && j < |bases| && k < |bases|
    requires bases[k] <= bases[j] + size < bases[k] + size
    ensures k == j + 1 && bases[k] == bases[j] + size
  {
    assert j + 1 < |bases| ==> bases[j + 1] == bases[j] + size;
  }

  // ----- the index of blocks

  /** The slot of the j-th entry of the last `used` before position `pos`. */
  function Slot(pos: int, used: int, j: int, size: nat): nat
    requires size > 0
  {
    (pos - used + j) % size
  }

  /** The first `n` of the entries in use list the first `n` blocks of the ring. */
  ghost predicate Lists(entries: seq<Entry>, pos: nat, ring: seq<nat>, bases: seq<nat>, n: int)
  {
    && |ring| == |bases| <= |entries| && |ring| <= pos && entries != [] && n <= |ring|
    && forall j :: 0 <= j < n ==> entries[Slot(pos, |ring|, j, |entries|)] == Entry(bases[j], ring[j])
  }

  /** The last `|ring|` entries of the index list the ring in order. */
  ghost predicate WindowOk(entries: seq<Entry>, pos: nat, ring: seq<nat>, bases: seq<nat>)
  {
    Lists(entries, pos, ring, bases, |ring|)
  }

  /** Writing the entry of the newest block completes the window. */
  lemma WindowAfterWrite(entries: seq<Entry>, pos: nat, ring: seq<nat>, bases: seq<nat>)
    requires ring != [] && pos > 0 && Lists(entries, pos, ring, bases, |ring| - 1)
    ensures var last := |ring| - 1;
      WindowOk(entries[(pos - 1) % |entries| := Entry(bases[last], ring[last])], pos, ring, bases)
  {
    var last, slot := |ring| - 1, (pos - 1) % |entries|;
    forall j | 0 <= j < last ensures Slot(pos, |ring|, j, |entries|) != slot {
      SlotsDiffer(pos - |ring| + j, pos - 1, |entries|);
    }
  }

  /** The window, seen from the next position, when the oldest block has become the newest. */
  lemma WindowTurns(entries: seq<Entry>, pos: nat, ring: seq<nat>, bases: seq<nat>, next: nat)
    requires WindowOk(entries, pos, ring, bases) && ring != []
    ensures Lists(entries, pos + 1, Rotate(ring, ring[0]), Rotate(bases, next), |ring| - 1)
  {
    var pos' := pos + 1;
    forall j | 0 <= j < |ring| - 1
      ensures Slot(pos', |ring|, j, |entries|) == Slot(pos, |ring|, j + 1, |entries|)
    {
      assert pos' - |ring| + j == pos - |ring| + (j + 1);
    }
  }

  /** The window, seen from the next position, when a block has joined the ring. */
  lemma WindowGrows(entries: seq<Entry>, pos: nat, ring: seq<nat>, bases: seq<nat>, b: nat, next: nat)
    requires WindowOk(entries, pos, ring, bases) && |ring| < |entries|
    ensures Lists(entries, pos + 1, ring + [b], bases + [next], |ring|)
  {
    var pos', n := pos + 1, |ring| + 1;
    forall j | 0 <= j < |ring|
      ensures Slot(pos', n, j, |entries|) == Slot(pos, |ring|, j, |entries|)
    {
      assert pos' - n + j == pos - |ring| + j;
    }
  }

  lemma {:induction false} BasesSpread(bases: seq<nat>, size: nat, j: nat, k: nat)
    requires size > 0 && BasesOk(bases, size) && j <= k < |bases|
    ensures bases[j] == bases[k] - (k - j) * size
    decreases k
  {
    if j < k {
      BasesSpread(bases, size, j, k - 1);
      assert bases[k - 1 + 1] == bases[k - 1] + size;
      assert (k - j) * size == (k - 1 - j) * size + size;
    }
  }

  /** The slot that `dequeue` computes from the published front and the base stored there. */
  function LookUp(entries: seq<Entry>, front: nat, index: nat, size: nat): nat
    requires size > 0 && front < |entries|
  {
    var offset := TruncatedDivision(BlockBase(index, size) - entries[front].base, size);
    (front + offset) % |entries|
  }

  /**
   For any index in the window, the look-up finds the entry of its block, from whichever entry `f` of
   the window it starts: the front that a consumer has read need not be the newest.
   */
  lemma LookUpFindsBlock(entries: seq<Entry>, pos: nat, ring: seq<nat>, bases: seq<nat>, size: nat, index: nat,
                         j: nat, f: nat)
    requires size > 0 && BasesOk(bases, size) && WindowOk(entries, pos, ring, bases)
    requires j < |ring| && bases[j] <= index < bases[j] + size && f < |ring|
    ensures var slot := LookUp(entries, Slot(pos, |ring|, f, |entries|), index, size);
      && slot == Slot(pos, |ring|, j, |entries|)
      && entries[slot] == Entry(bases[j], ring[j])
  {
    var n := |ring|;
    BaseIsUnique(bases[j], index, size);
    if j < f { BasesSpread(bases, size, j, f); } else { BasesSpread(bases, size, f, j); }
    var offset: int := j - f;
    assert bases[j] == bases[f] + offset * size by { SwapSign(f - j, size); }
    DivisionOfMultiple(offset, size);
    RemainderOfSum(pos - n + f, offset, |entries|);
    assert pos - n + f + offset == pos - n + j;
  }

  lemma SwapSign(a: int, b: int)
    ensures (0 - a) * b == 0 - a * b
  {}

  /** The slot after that of block `j` is that of block `j + 1`. */
  lemma NextSlot(pos: int, used: int, j: int, size: nat)
    requires size > 0
    ensures (Slot(pos, used, j, size) + 1) % size == Slot(pos, used, j + 1, size)
  {
    var p := pos - used + j;
    RemainderOfSum(p, 1, size);
    assert pos - used + (j + 1) == p + 1;
  }
}
