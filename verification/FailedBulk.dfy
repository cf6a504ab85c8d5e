/**
 What a failed bulk enqueue leaves behind.  `enqueue_bulk` first takes all the blocks that it needs; when
 one cannot be had, it takes back its changes to the block index, but the blocks that it has linked in stay
 in the list.  The index counts its blocks in `pr_blockIndexSlotsUsed`, and that count is taken back too.

 Here is the producer's bookkeeping alone: the circular list of blocks, and the circular index.  Blocks
 that hold items are numbered in the order in which they were started, and a number stands for the base
 of its block.
 */
module FailedBulk {
  import opened CircularIndex
  import opened Sequences
  import opened Wrappers
  import Runs

  datatype Entry = Entry(number: int, block: nat)

  datatype State = State(
    size: nat,                // pr_blockIndexSize
    slotsUsed: nat,           // pr_blockIndexSlotsUsed
    pos: nat,                 // pr_blockIndexFront is pos modulo the size
    entries: seq<Entry>,
    front: int,               // the slot that consumers start from
    lo: nat,                  // the number of the oldest block that is not empty
    live: seq<nat>,           // the blocks from that one on, up to the tail block
    spare: seq<nat>)          // the empty blocks ahead of the tail block, the next one first

  ghost predicate Shape(s: State)
  {
    s.size > 0 && |s.entries| == s.size
  }

  function Slot(pos: int, used: nat, j: int, size: nat): (slot: nat)
    requires size > 0
    ensures slot < size
  {
    (pos - used + j) % size
  }

  // ----- the producer's operations

  /** The next entry of the index is written for the block that has just become the tail block. */
  function Start(s: State, block: nat): State
    requires s.size > 0 && |s.entries| == s.size
  {
    s.(entries := s.entries[s.pos % s.size := Entry(s.lo + |s.live|, block)], pos := s.pos + 1, live := s.live + [block])
  }

  /** The block ahead is reused. */
  function Reuse(s: State): State
    requires s.size > 0 && |s.entries| == s.size && s.spare != []
  {
    Start(s, s.spare[0]).(spare := s.spare[1..])
  }

  /** A block from the pool is linked in. */
  function Add(s: State, block: nat): State
    requires s.size > 0 && |s.entries| == s.size
  {
    Start(s, block).(slotsUsed := s.slotsUsed + 1)
  }

  /** `new_block_index`: copies as many entries as are counted, up to the newest, and exposes `expose` of them. */
  function Grow(s: State, expose: nat): State
    requires s.size > 0 && |s.entries| == s.size
  {
    s.(size := 2 * s.size, pos := s.slotsUsed, front := expose - 1,
       entries := seq(2 * s.size, k requires 0 <= k < 2 * s.size =>
         if k < s.slotsUsed then s.entries[Slot(s.pos, s.slotsUsed, k, s.size)] else Entry(0, 0)))
  }

  function Expose(s: State): State
    requires s.size > 0
  {
    s.(front := (s.pos - 1) % s.size)
  }

  /** `enqueue` at the end of a block: `room` is whether the leeway and the size limit allow another block. */
  function StartBlock(s: State, room: bool, indexMemory: bool, pool: Option<nat>): State
    requires s.size > 0 && |s.entries| == s.size
  {
    if s.spare != [] then Expose(Reuse(s))
    else if !room || (s.slotsUsed == s.size && !indexMemory) then s
    else
      var s' := if s.slotsUsed == s.size then Grow(s, s.slotsUsed) else s;
      if pool.None? then s' else Expose(Add(s', pool.value))
  }

  /** The loop of `enqueue_bulk` that takes blocks from ahead. */
  function ReuseAhead(s: State, need: nat): State
    requires s.size > 0 && |s.entries| == s.size
    decreases need
  {
    if need == 0 || s.spare == [] then s else ReuseAhead(Reuse(s), need - 1)
  }

  /** The loop that takes the rest from the pool; there is room for `room` more; a larger index shows `expose` entries. */
  function AddRest(s: State, need: nat, room: nat, indexMemory: bool, pool: seq<nat>, expose: nat): (State, bool)
    requires s.size > 0 && |s.entries| == s.size
    decreases need
  {
    if need == 0 then (s, true)
    else if room == 0 || (s.slotsUsed == s.size && !indexMemory) then (s, false)
    else
      var s' := if s.slotsUsed == s.size then Grow(s, expose) else s;
      if pool == [] then (s', false)
      else AddRest(Add(s', pool[0]), need - 1, room - 1, indexMemory, pool[1..], expose)
  }

  /** What is taken back: `s'` is how far the bulk enqueue got from `s`. */
  function Undo(s: State, s': State): State
    requires |s.live| <= |s'.live|
  {
    var kept := s'.live[|s.live|..] + s'.spare;
    s'.(slotsUsed := s.slotsUsed, pos := if s'.size == s.size then s.pos else s.slotsUsed, live := s.live,
        // without a tail block before, the first new one becomes it
        spare := if s.live + s.spare == [] && kept != [] then kept[1..] + [kept[0]] else kept)
  }

  lemma {:induction false} ReuseAheadShape(s: State, need: nat)
    requires Shape(s)
    ensures var s' := ReuseAhead(s, need); Shape(s') && s'.size == s.size && s.live <= s'.live
    ensures |ReuseAhead(s, need).live| <= |s.live| + need
    decreases need
  {
    if need > 0 && s.spare != [] { ReuseAheadShape(Reuse(s), need - 1); }
  }

  lemma {:induction false} AddRestShape(s: State, need: nat, room: nat, indexMemory: bool, pool: seq<nat>, expose: nat)
    requires Shape(s)
    ensures var (s', _) := AddRest(s, need, room, indexMemory, pool, expose); Shape(s') && s.live <= s'.live
    ensures var (s', _) := AddRest(s, need, room, indexMemory, pool, expose);
      s'.lo == s.lo && s'.spare == s.spare && s.size <= s'.size
    decreases need
  {
    if need > 0 && room > 0 && (s.slotsUsed < s.size || s.slotsUsed > s.size || indexMemory) && pool != [] {
      var s' := if s.slotsUsed == s.size then Grow(s, expose) else s;
      AddRestShape(Add(s', pool[0]), need - 1, room - 1, indexMemory, pool[1..], expose);
    }
  }

  /** `enqueue_bulk`, up to where it starts to fill the blocks; it needs `need` of them. */
  function Bulk(s: State, need: nat, room: nat, indexMemory: bool, pool: seq<nat>): (r: (State, bool))
    requires s.size > 0 && |s.entries| == s.size
  {
    var s1 := ReuseAhead(s, need);
    ReuseAheadShape(s, need);
    var rest := need - (|s1.live| - |s.live|);
    var (s2, ok) := AddRest(s1, rest, room, indexMemory, pool, s.slotsUsed);
    AddRestShape(s1, rest, room, indexMemory, pool, s.slotsUsed);
    if !ok then (Undo(s, s2), false)
    else if need > 0 then (Expose(s2), true)
    else (s2, true)
  }

  /** The consumers have emptied the oldest block. */
  function Empty(s: State): State
    requires s.live != []
  {
    s.(lo := s.lo + 1, live := s.live[1..], spare := s.spare + [s.live[0]])
  }

  /** The entry that a consumer arrives at for an index in block number `b`. */
  function LookUp(s: State, b: int): Entry
    requires s.size > 0 && |s.entries| == s.size && 0 <= s.front < s.size
  {
    s.entries[(s.front + (b - s.entries[s.front].number)) % s.size]
  }

  // ----- what must hold

  /** The newest entries of the index are those of the blocks that hold items. */
  ghost predicate Lists(s: State)
  {
    && Shape(s) && |s.live| <= s.size && |s.live| <= s.pos
    && forall j :: 0 <= j < |s.live| ==> s.entries[Slot(s.pos, |s.live|, j, s.size)] == Entry(s.lo + j, s.live[j])
  }

  /** The count is the number of blocks in the list, and they have room in the index. */
  predicate Counted(s: State)
  {
    s.slotsUsed == |s.live| + |s.spare| <= s.size
  }

  ghost predicate Shown(s: State)
    requires s.size > 0
  {
    s.live != [] ==> s.front == (s.pos - 1) % s.size
  }

  ghost predicate Good(s: State)
  {
    Lists(s) && Counted(s) && Shown(s)
  }

  lemma FromFront(pos: nat, n: nat, j: int, size: nat)
    requires size > 0
    ensures ((pos - 1) % size + (j - (n - 1))) % size == Slot(pos, n, j, size)
    ensures Slot(pos, n, n - 1, size) == (pos - 1) % size
  {
    RemainderOfSum(pos - 1, j - (n - 1), size);
    assert pos - 1 + (j - (n - 1)) == pos - n + j;
  }

  /** Then each block is found from whichever index in it has been claimed. */
  lemma GoodFinds(s: State, j: nat)
    requires Lists(s) && Shown(s) && j < |s.live|
    ensures 0 <= s.front < s.size && LookUp(s, s.lo + j) == Entry(s.lo + j, s.live[j])
  {
    hide Slot;
    var n := |s.live|;
    FromFront(s.pos, n, j, s.size);
    assert s.entries[s.front] == Entry(s.lo + (n - 1), s.live[n - 1]);
    assert s.lo + j - (s.lo + (n - 1)) == j - (n - 1);
  }

  // ----- what keeps it

  lemma StartKeepsLists(s: State, block: nat)
    requires Lists(s) && |s.live| < s.size
    ensures Lists(Start(s, block))
  {
    var s', n := Start(s, block), |s.live|;
    forall j | 0 <= j <= n ensures s'.entries[Slot(s'.pos, n + 1, j, s.size)] == Entry(s.lo + j, s'.live[j]) {
      assert s'.pos - (n + 1) + j == s.pos - n + j;
      if j < n { SlotsDiffer(s.pos - n + j, s.pos, s.size); }
    }
  }

  lemma GrowKeepsLists(s: State, expose: nat)
    requires Lists(s) && |s.live| <= s.slotsUsed <= s.size
    ensures Lists(Grow(s, expose))
  {
    var s', n := Grow(s, expose), |s.live|;
    forall j | 0 <= j < n ensures s'.entries[Slot(s'.pos, n, j, s'.size)] == Entry(s.lo + j, s.live[j]) {
      var k := s.slotsUsed - n + j;
      RemainderIsUnique(k, 0, k, s'.size);
      assert s.pos - s.slotsUsed + k == s.pos - n + j;
    }
  }

  lemma ExposeShows(s: State)
    requires Lists(s)
    ensures Lists(Expose(s)) && Shown(Expose(s))
  {}

  /** A block that becomes the tail block is listed, and counted if it is new. */
  lemma StartKeepsGood(s: State, s': State, block: nat)
    requires Lists(s) && |s.live| < s.size && s' == Start(s, block).(slotsUsed := s'.slotsUsed, spare := s'.spare)
    ensures Lists(Expose(s')) && Shown(Expose(s'))
  {
    hide Lists;
    ListsShape(s);
    StartKeepsLists(s, block);
    SameLists(Start(s, block), s');
    ListsShape(s');
    ExposeShows(s');
  }

  /** Growing alone keeps everything as well. */
  lemma GrowKeepsGood(s: State)
    requires Lists(s) && Counted(s)
    ensures Lists(Grow(s, s.slotsUsed)) && Counted(Grow(s, s.slotsUsed)) && Shown(Grow(s, s.slotsUsed))
  {
    hide Lists;
    ListsShape(s);
    GrowKeepsLists(s, s.slotsUsed);
    if s.live != [] { RemainderIsUnique(s.slotsUsed - 1, 0, s.slotsUsed - 1, 2 * s.size); }
  }

  lemma StartBlockKeeps(s: State, room: bool, indexMemory: bool, pool: Option<nat>)
    requires Good(s)
    ensures Good(StartBlock(s, room, indexMemory, pool))
  {
    hide Lists, Shown, Expose, Grow, Start;
    ListsShape(s);
    if s.spare != [] {
      StartKeepsGood(s, Reuse(s), s.spare[0]);
      StartCounts(s, s.spare[0]);
    } else if room && (s.slotsUsed < s.size || indexMemory) {
      var s' := if s.slotsUsed == s.size then Grow(s, s.slotsUsed) else s;
      if s.slotsUsed == s.size {
        GrowKeepsGood(s);
        GrowCounts(s, s.slotsUsed);
      }
      if pool.Some? {
        StartKeepsGood(s', Add(s', pool.value), pool.value);
        StartCounts(s', pool.value);
      }
    }
  }

  lemma StartCounts(s: State, block: nat)
    requires Shape(s)
    ensures var s' := Start(s, block);
      && Shape(s') && s'.size == s.size && s'.slotsUsed == s.slotsUsed && s'.spare == s.spare
      && s'.live == s.live + [block]
    ensures forall s': State :: Shape(s') ==>
      Expose(s').live == s'.live && Expose(s').spare == s'.spare && Expose(s').slotsUsed == s'.slotsUsed
      && Expose(s').size == s'.size
  {}

  lemma GrowCounts(s: State, expose: nat)
    requires Shape(s)
    ensures var s' := Grow(s, expose);
      && Shape(s') && s'.size == 2 * s.size && s'.slotsUsed == s.slotsUsed && s'.spare == s.spare
      && s'.live == s.live && s'.lo == s.lo && s'.pos == s.slotsUsed && s'.front == expose - 1
  {}

  lemma ListsShape(s: State)
    requires Lists(s)
    ensures Shape(s) && |s.live| <= s.size && |s.live| <= s.pos
  {}

  lemma SameLists(s: State, s': State)
    requires Lists(s) && s' == s.(slotsUsed := s'.slotsUsed, spare := s'.spare, front := s'.front)
    ensures Lists(s')
  {}

  lemma EmptyKeeps(s: State)
    requires Good(s) && s.live != []
    ensures Good(Empty(s))
  {
    var s', n := Empty(s), |s.live|;
    forall j | 0 <= j < n - 1 ensures s.entries[Slot(s.pos, n - 1, j, s.size)] == Entry(s'.lo + j, s'.live[j]) {
      assert Slot(s.pos, n - 1, j, s.size) == Slot(s.pos, n, j + 1, s.size);
      assert s.entries[Slot(s.pos, n, j + 1, s.size)] == Entry(s.lo + (j + 1), s.live[j + 1]);
    }
  }

  // ----- a bulk enqueue

  lemma {:induction false} ReuseAheadKeeps(s: State, need: nat)
    requires Lists(s) && Counted(s)
    ensures var s' := ReuseAhead(s, need);
      && Lists(s') && Counted(s') && s.live <= s'.live && s'.lo == s.lo
      && s'.live[|s.live|..] + s'.spare == s.spare
      && |s'.live| - |s.live| == Min(need, |s.spare|)
      && s'.pos - |s'.live| == s.pos - |s.live| && s'.size == s.size && s'.slotsUsed == s.slotsUsed && s'.front == s.front
    decreases need
  {
    hide Lists;
    ListsShape(s);
    if need > 0 && s.spare != [] {
      StartKeepsLists(s, s.spare[0]);
      SameLists(Start(s, s.spare[0]), Reuse(s));
      ReuseAheadKeeps(Reuse(s), need - 1);
    }
  }

  function Min(a: nat, b: nat): nat { if a < b then a else b }

  /** As long as it succeeds, everything is listed and counted. */
  lemma {:induction false} AddRestKeeps(s: State, need: nat, room: nat, indexMemory: bool, pool: seq<nat>, expose: nat)
    requires Lists(s) && Counted(s) && s.spare == []
    ensures var (s', ok) := AddRest(s, need, room, indexMemory, pool, expose);
      && Lists(s') && Counted(s') && s.live <= s'.live && s'.lo == s.lo && s'.spare == []
      && s'.slotsUsed - s.slotsUsed == |s'.live| - |s.live|
      && (ok ==> |s'.live| == |s.live| + need)
      && (if s'.size == s.size then s'.pos - |s'.live| == s.pos - |s.live| && s'.front == s.front
          else s'.size > s.size && s'.pos == |s'.live| && s'.front == expose - 1)
    decreases need
  {
    hide Lists;
    ListsShape(s);
    if need > 0 && room > 0 && (s.slotsUsed < s.size || indexMemory) {
      var s' := if s.slotsUsed == s.size then Grow(s, expose) else s;
      if s.slotsUsed == s.size { GrowKeepsLists(s, expose); }
      if pool != [] {
        StartKeepsLists(s', pool[0]);
        SameLists(Start(s', pool[0]), Add(s', pool[0]));
        AddRestKeeps(Add(s', pool[0]), need - 1, room - 1, indexMemory, pool[1..], expose);
      }
    }
  }

  /** The blocks that it gets are the first ones of the pool. */
  lemma {:induction false} AddRestTakes(s: State, need: nat, room: nat, indexMemory: bool, pool: seq<nat>, expose: nat)
    requires Shape(s)
    ensures var (s', _) := AddRest(s, need, room, indexMemory, pool, expose);
      |s.live| <= |s'.live| <= |s.live| + |pool| && s'.live == s.live + pool[..|s'.live| - |s.live|]
    decreases need
  {
    hide Grow;
    if need > 0 && room > 0 && (s.slotsUsed != s.size || indexMemory) {
      var s' := if s.slotsUsed == s.size then Grow(s, expose) else s;
      if s.slotsUsed == s.size { GrowCounts(s, expose); }
      if pool != [] {
        AddRestTakes(Add(s', pool[0]), need - 1, room - 1, indexMemory, pool[1..], expose);
        FirstAndRest(s.live, pool, AddRest(s, need, room, indexMemory, pool, expose).0.live);
      }
    }
  }

  lemma FirstAndRest(live: seq<nat>, pool: seq<nat>, live': seq<nat>)
    requires pool != [] && 1 <= |live'| - |live| <= |pool|
    requires live' == live + [pool[0]] + pool[1..][..|live'| - |live| - 1]
    ensures live' == live + pool[..|live'| - |live|]
  {
    assert [pool[0]] + pool[1..][..|live'| - |live| - 1] == pool[..|live'| - |live|];
  }

  lemma NothingToAdd(s: State, room: nat, indexMemory: bool, pool: seq<nat>, expose: nat)
    requires Shape(s)
    ensures AddRest(s, 0, room, indexMemory, pool, expose) == (s, true)
  {}

  /** A bulk enqueue that succeeds keeps the books. */
  lemma BulkKeeps(s: State, need: nat, room: nat, indexMemory: bool, pool: seq<nat>)
    requires Good(s) && Bulk(s, need, room, indexMemory, pool).1
    ensures var s' := Bulk(s, need, room, indexMemory, pool).0; Good(s') && |s'.live| == |s.live| + need
  {
    hide Lists;
    ListsShape(s);
    ReuseAheadKeeps(s, need);
    var s1 := ReuseAhead(s, need);
    ListsShape(s1);
    var rest := need - (|s1.live| - |s.live|);
    if rest > 0 {
      AddRestKeeps(s1, rest, room, indexMemory, pool, s.slotsUsed);
    } else {
      NothingToAdd(s1, room, indexMemory, pool, s.slotsUsed);
    }
    var s2 := AddRest(s1, rest, room, indexMemory, pool, s.slotsUsed).0;
    ListsShape(s2);
    if need > 0 { ExposeShows(s2); }
  }

  /** The first block that has to come from the pool cannot be had. */
  predicate FailsAtOnce(s: State, room: nat, indexMemory: bool, pool: seq<nat>)
  {
    room == 0 || (s.slotsUsed == s.size && !indexMemory) || pool == []
  }

  /** The index has been replaced by then. */
  predicate GrowsFirst(s: State, room: nat, indexMemory: bool)
  {
    room > 0 && s.slotsUsed == s.size && indexMemory
  }

  /** A failed bulk enqueue is harmless: it keeps no new block, and has not copied entries that it takes back. */
  predicate Harmless(s: State, room: nat, indexMemory: bool, pool: seq<nat>)
  {
    FailsAtOnce(s, room, indexMemory, pool) && !(GrowsFirst(s, room, indexMemory) && s.spare != [] && s.live != [])
  }

  /** What is left of a bulk enqueue that fails at once. */
  lemma FailedAtOnce(s: State, need: nat, room: nat, indexMemory: bool, pool: seq<nat>)
    requires Good(s) && need > |s.spare| && FailsAtOnce(s, room, indexMemory, pool)
    ensures var s1, (s', ok) := ReuseAhead(s, need), Bulk(s, need, room, indexMemory, pool);
      && Lists(s1) && s1.live == s.live + s.spare && s1.pos == s.pos + |s.spare| && s1.size == s.size
      && s1.spare == [] && s1.front == s.front && s1.lo == s.lo && s1.slotsUsed == s.slotsUsed
      && !ok
      && s' == Undo(s, if GrowsFirst(s, room, indexMemory) then Grow(s1, s.slotsUsed) else s1)
  {
    hide Lists;
    ListsShape(s);
    ReuseAheadKeeps(s, need);
    var s1 := ReuseAhead(s, need);
    assert s1.spare == [] && s1.live[|s.live|..] == s.spare;
    assert s1.live == s.live + s.spare;
    ListsShape(s1);
  }

  /** The books after a failure without growth. */
  lemma UndoKeeps(s: State, s1: State)
    requires Good(s) && Lists(s1) && s1.live == s.live + s.spare && s1.spare == [] && s1.slotsUsed == s.slotsUsed
    requires s1.pos == s.pos + |s.spare| && s1.size == s.size && s1.front == s.front && s1.lo == s.lo
    ensures Good(Undo(s, s1))
  {
    var s', n := Undo(s, s1), |s.live|;
    assert s1.live[n..] == s.spare;
    forall j | 0 <= j < n ensures s'.entries[Slot(s'.pos, n, j, s.size)] == Entry(s.lo + j, s.live[j]) {
      assert Slot(s1.pos, |s1.live|, j, s.size) == Slot(s.pos, n, j, s.size);
      assert s1.entries[Slot(s1.pos, |s1.live|, j, s.size)] == Entry(s.lo + j, s1.live[j]);
    }
  }

  /** After a failure behind a growth, each block's entry lies as many places too far back as blocks were taken back. */
  lemma UndoShifts(s: State, s1: State, j: nat)
    requires Good(s) && Lists(s1) && s1.live == s.live + s.spare && s1.spare == []
    requires s1.slotsUsed == s.slotsUsed == s.size
    requires s1.size == s.size && s1.lo == s.lo && j < |s.live|
    ensures var s' := Undo(s, Grow(s1, s.slotsUsed));
      && s'.size == 2 * s.size && |s'.entries| == s'.size && s'.pos == s.slotsUsed && s'.live == s.live
      && s'.entries[Slot(s'.pos, |s.live|, j, s'.size)].number == s.lo + |s.spare| + j
  {
    hide Lists, Grow, Slot;
    ListsShape(s1);
    GrowCounts(s1, s.slotsUsed);
    GrowKeepsLists(s1, s.slotsUsed);
    ListedAt(Grow(s1, s.slotsUsed), |s.spare| + j);
    SameSlot(s.slotsUsed, |s1.live|, |s.spare| + j, s.slotsUsed, |s.live|, j, 2 * s.size);
  }

  lemma ListedAt(s: State, j: nat)
    requires Lists(s) && j < |s.live|
    ensures Shape(s) && s.entries[Slot(s.pos, |s.live|, j, s.size)] == Entry(s.lo + j, s.live[j])
  {}

  lemma SameSlot(pos: int, m: nat, k: int, pos': int, n: nat, j: int, size: nat)
    requires size > 0 && pos - m + k == pos' - n + j
    ensures Slot(pos, m, k, size) == Slot(pos', n, j, size)
  {}

  lemma UndoAfterGrowth(s: State, s1: State)
    requires Good(s) && Lists(s1) && s1.live == s.live + s.spare && s1.spare == []
    requires s1.slotsUsed == s.slotsUsed == s.size
    requires s1.size == s.size && s1.lo == s.lo && s1.pos == s.pos + |s.spare|
    ensures Good(Undo(s, Grow(s1, s.slotsUsed))) <==> s.spare == [] || s.live == []
  {
    var s' := Undo(s, Grow(s1, s.slotsUsed));
    assert s1.live[|s.live|..] == s.spare;
    if s.live != [] { UndoShifts(s, s1, 0); }
    if s.spare == [] {
      GrowKeepsGood(s1);
      assert s1.live == s.live;
    }
  }

  /** How far a bulk enqueue from `s` may have got: so many blocks are listed, in an index that may be a new one. */
  ghost predicate Reached(s: State, s2: State)
  {
    && Lists(s2) && s.live + s.spare <= s2.live && s2.spare == [] && s2.lo == s.lo
    && (if s2.size == s.size then s2.pos - |s2.live| == s.pos - |s.live| && s2.front == s.front
        else s2.size > s.size && s2.pos == |s2.live| && s2.front == s.slotsUsed - 1)
  }

  /** A bulk enqueue that does not fail at once keeps the block that it has got first. */
  lemma KeepsABlock(s: State, need: nat, room: nat, indexMemory: bool, pool: seq<nat>) returns (s2: State)
    requires Good(s) && !Bulk(s, need, room, indexMemory, pool).1 && !FailsAtOnce(s, room, indexMemory, pool)
    ensures Reached(s, s2) && |s.live| + |s.spare| < |s2.live| <= |s.live| + |s.spare| + |pool|
    ensures s2.live == s.live + s.spare + pool[..|s2.live| - |s.live| - |s.spare|]
    ensures Bulk(s, need, room, indexMemory, pool).0 == Undo(s, s2)
  {
    hide Lists, Undo, FailsAtOnce, Bulk, AddRest, ReuseAhead;
    FailureNeedsMore(s, need, room, indexMemory, pool);
    ListsShape(s);
    ReuseAheadKeeps(s, need);
    var s1, rest := ReuseAhead(s, need), need - |s.spare|;
    ListsShape(s1);
    BulkSplits(s, need, room, indexMemory, pool);
    assert s1.live == s.live + s1.live[|s.live|..];
    SameFailure(s, s1, room, indexMemory, pool);
    AddRestKeeps(s1, rest, room, indexMemory, pool, s.slotsUsed);
    FirstIsKept(s1, rest, room, indexMemory, pool, s.slotsUsed);
    AddRestTakes(s1, rest, room, indexMemory, pool, s.slotsUsed);
    s2 := AddRest(s1, rest, room, indexMemory, pool, s.slotsUsed).0;
  }

  /** A failed bulk enqueue has reused all the blocks ahead, and then tried to get the rest. */
  lemma BulkSplits(s: State, need: nat, room: nat, indexMemory: bool, pool: seq<nat>)
    requires Good(s) && need > |s.spare|
    ensures var s1 := ReuseAhead(s, need);
      && Shape(s1) && s1.spare == [] && s.live <= s1.live && s1.live[|s.live|..] == s.spare
      && var (s2, ok) := AddRest(s1, need - |s.spare|, room, indexMemory, pool, s.slotsUsed);
         if ok then Bulk(s, need, room, indexMemory, pool).1
         else |s.live| <= |s2.live| && Bulk(s, need, room, indexMemory, pool) == (Undo(s, s2), false)
  {
    hide Lists, Undo, AddRest, ReuseAhead;
    ListsShape(s);
    ReuseAheadKeeps(s, need);
    var s1 := ReuseAhead(s, need);
    ListsShape(s1);
    AddRestShape(s1, need - |s.spare|, room, indexMemory, pool, s.slotsUsed);
    assert |s1.live| - |s.live| == |s.spare|;
  }

  lemma SameFailure(s: State, s1: State, room: nat, indexMemory: bool, pool: seq<nat>)
    requires s1.size == s.size && s1.slotsUsed == s.slotsUsed
    ensures FailsAtOnce(s1, room, indexMemory, pool) == FailsAtOnce(s, room, indexMemory, pool)
  {}

  lemma FirstIsKept(s: State, need: nat, room: nat, indexMemory: bool, pool: seq<nat>, expose: nat)
    requires Lists(s) && Counted(s) && s.spare == [] && need > 0 && !FailsAtOnce(s, room, indexMemory, pool)
    ensures |AddRest(s, need, room, indexMemory, pool, expose).0.live| > |s.live|
  {
    hide Lists;
    ListsShape(s);
    var s' := if s.slotsUsed == s.size then Grow(s, expose) else s;
    if s.slotsUsed == s.size { GrowKeepsLists(s, expose); }
    StartKeepsLists(s', pool[0]);
    SameLists(Start(s', pool[0]), Add(s', pool[0]));
    AddRestKeeps(Add(s', pool[0]), need - 1, room - 1, indexMemory, pool[1..], expose);
  }

  /** Then the count is wrong. */
  lemma KeptIsNotCounted(s: State, s2: State)
    requires Counted(s) && s.live + s.spare <= s2.live && s2.spare == [] && |s2.live| > |s.live| + |s.spare|
    ensures var s' := Undo(s, s2);
      && s'.live == s.live && s'.lo == s2.lo && s'.slotsUsed == s.slotsUsed && |s'.spare| > |s.spare|
      && !Counted(s')
  {}

  /**
   When `enqueue_bulk` fails, the books are in order afterwards if and only if the first block that it had
   to get from the pool could not be had, and the index had not been replaced behind reused blocks.
   */
  lemma FailureIsHarmless(s: State, need: nat, room: nat, indexMemory: bool, pool: seq<nat>)
    requires Good(s) && !Bulk(s, need, room, indexMemory, pool).1
    ensures Good(Bulk(s, need, room, indexMemory, pool).0) <==> Harmless(s, room, indexMemory, pool)
  {
    hide Lists, Undo;
    ListsShape(s);
    FailureNeedsMore(s, need, room, indexMemory, pool);
    if FailsAtOnce(s, room, indexMemory, pool) {
      FailedAtOnce(s, need, room, indexMemory, pool);
      var s1 := ReuseAhead(s, need);
      ReuseAheadKeeps(s, need);
      if GrowsFirst(s, room, indexMemory) { UndoAfterGrowth(s, s1); } else { UndoKeeps(s, s1); }
    } else {
      var s2 := KeepsABlock(s, need, room, indexMemory, pool);
      KeptIsNotCounted(s, s2);
    }
  }

  lemma FailureNeedsMore(s: State, need: nat, room: nat, indexMemory: bool, pool: seq<nat>)
    requires Good(s) && !Bulk(s, need, room, indexMemory, pool).1
    ensures need > |s.spare|
  {
    hide Lists, Bulk;
    if need <= |s.spare| { EnoughSpare(s, need, room, indexMemory, pool); }
  }

  lemma EnoughSpare(s: State, need: nat, room: nat, indexMemory: bool, pool: seq<nat>)
    requires Good(s) && need <= |s.spare|
    ensures Bulk(s, need, room, indexMemory, pool).1
  {
    hide Lists;
    ListsShape(s);
    ReuseAheadKeeps(s, need);
    var s1 := ReuseAhead(s, need);
    ListsShape(s1);
    NothingToAdd(s1, room, indexMemory, pool, s.slotsUsed);
    assert need - (|s1.live| - |s.live|) == 0;
  }

  // ----- the harm

  /** A consumer that has claimed an item in the oldest block arrives at the entry of another one, and reads from that. */
  ghost predicate Misled(s: State)
  {
    && Shape(s) && s.live != [] && 0 <= s.front < s.size
    && LookUp(s, s.lo).number != s.lo && LookUp(s, s.lo).block != s.live[0]
  }

  // The pool yields blocks that are not in the list, so that no block is there twice.

  lemma Shortened(a: seq<nat>, b: seq<nat>, c: seq<nat>)
    requires Distinct(a + b + c)
    ensures Distinct(a + c)
  {
    forall i, j | 0 <= i < j < |a + c| ensures (a + c)[i] != (a + c)[j] {
      var k, l := if i < |a| then i else i + |b|, if j < |a| then j else j + |b|;
      assert (a + c)[i] == (a + b + c)[k] && (a + c)[j] == (a + b + c)[l];
    }
  }

  lemma Swapped(a: seq<nat>, b: seq<nat>, c: seq<nat>)
    requires Distinct(a + b + c)
    ensures Distinct(b + a + c)
  {
    var was, now := a + b + c, b + a + c;
    forall i, j | 0 <= i < j < |now| ensures now[i] != now[j] {
      var k := if i < |b| then i + |a| else if i < |a| + |b| then i - |b| else i;
      var l := if j < |b| then j + |a| else if j < |a| + |b| then j - |b| else j;
      assert now[i] == was[k] && now[j] == was[l];
    }
  }

  /** The producer fills one block after the other, with memory for blocks but not for a larger index. */
  function Starts(s: State, pool: seq<nat>): State
    requires s.size > 0 && |s.entries| == s.size
    decreases |pool|
  {
    if pool == [] then s
    else
      StartsShape(s, pool[0]);
      Starts(StartBlock(s, true, false, Some(pool[0])), pool[1..])
  }

  lemma StartsShape(s: State, block: nat)
    requires Shape(s)
    ensures Shape(StartBlock(s, true, false, Some(block)))
  {}

  /** The block that is started next. */
  function NextUp(s: State, block: nat): nat
  {
    if s.spare != [] then s.spare[0] else block
  }

  /** One more block is started, new or not; the index is thought to have room. */
  lemma OneMore(s: State, block: nat)
    requires Shape(s) && s.slotsUsed < |s.live| + |s.spare| && |s.live| <= s.size
    ensures OneMoreIs(s, StartBlock(s, true, false, Some(block)), NextUp(s, block))
  {}

  ghost predicate OneMoreIs(s: State, s': State, b: nat)
    requires Shape(s)
  {
    && s' == Expose(Start(s, b).(slotsUsed := s'.slotsUsed, spare := s'.spare))
    && s'.slotsUsed < |s'.live| + |s'.spare| && s'.spare == (if s.spare != [] then s.spare[1..] else [])
  }

  /** The next entry is written over that of the oldest block. */
  lemma Overwrites(s: State, s': State, b: nat)
    requires Lists(s) && |s.live| == s.size && OneMoreIs(s, s', b) && b !in s.live
    ensures Misled(s')
  {
    RemainderOfSum(s.pos, 0 - s.size, s.size);
    RemainderOfShift(s.pos, -1, s.size);
    assert s'.front == s.pos % s.size && s'.entries[s'.front] == Entry(s.lo + s.size, b);
    assert (s'.front + (s.lo - (s.lo + s.size))) % s.size == s.pos % s.size;
  }

  /** Blocks that are started stay different from one another. */
  lemma StillDistinct(s: State, s': State, pool: seq<nat>)
    requires Shape(s) && pool != [] && Distinct(s.live + s.spare + pool) && OneMoreIs(s, s', NextUp(s, pool[0]))
    ensures NextUp(s, pool[0]) !in s.live && Distinct(s'.live + s'.spare + pool[1..])
  {
    var all, b := s.live + s.spare + pool, NextUp(s, pool[0]);
    assert all[|s.live|] == b;
    assert forall j :: 0 <= j < |s.live| ==> all[j] == s.live[j];
    if s.spare != [] {
      assert all == (s'.live + s'.spare) + [pool[0]] + pool[1..];
      Shortened(s'.live + s'.spare, [pool[0]], pool[1..]);
    } else {
      assert all == s'.live + s'.spare + pool[1..];
    }
  }

  /** With more blocks in the list than counted, filling blocks misleads consumers in the end. */
  lemma {:induction false} Misleads(s: State, pool: seq<nat>)
    requires Lists(s) && s.slotsUsed < |s.live| + |s.spare| && |pool| == s.size - |s.live| + 1
    requires Distinct(s.live + s.spare + pool)
    ensures Misled(Starts(s, pool))
    decreases |pool|
  {
    hide Lists, StartBlock, Misled, OneMoreIs, Distinct, NextUp;
    ListsShape(s);
    OneMore(s, pool[0]);
    StartsShape(s, pool[0]);
    var s', b := StartBlock(s, true, false, Some(pool[0])), NextUp(s, pool[0]);
    StillDistinct(s, s', pool);
    if |s.live| == s.size {
      Overwrites(s, s', b);
      assert Starts(s', pool[1..]) == s';
    } else {
      OneMoreListed(s, s', b);
      Misleads(s', pool[1..]);
    }
  }

  lemma OneMoreListed(s: State, s': State, b: nat)
    requires Lists(s) && |s.live| < s.size && OneMoreIs(s, s', b)
    ensures Lists(s') && s'.live == s.live + [b] && s'.size == s.size && s'.slotsUsed < |s'.live| + |s'.spare|
  {
    hide Lists;
    ListsShape(s);
    StartKeepsLists(s, b);
    SameLists(Start(s, b), s');
  }

  /** What is taken back after a growth behind reused blocks leaves the entries shifted. */
  ghost predicate Shifted(s: State, shift: nat)
  {
    && Shape(s) && 0 < |s.live| < s.size && shift > 0 && s.spare != [] && |s.live| <= s.pos < s.size
    && s.entries[Slot(s.pos, |s.live|, 0, s.size)].number == s.lo + shift
    && s.entries[Slot(s.pos, |s.live|, 0, s.size)].block != s.live[0]
  }

  /** The next block to be started then misleads them at once. */
  lemma ShiftMisleads(s: State, shift: nat, block: nat)
    requires Shifted(s, shift)
    ensures Misled(Starts(s, [block]))
  {
    var s', n := StartBlock(s, true, false, Some(block)), |s.live|;
    assert s' == Expose(Reuse(s));
    StartsShape(s, block);
    assert Starts(s', [block][1..]) == s';
    RemainderIsUnique(s.pos, 0, s.pos, s.size);
    RemainderIsUnique(s.pos - n, 0, s.pos - n, s.size);
    assert s'.front == s.pos && s'.entries[s.pos] == Entry(s.lo + n, s.spare[0]);
    assert s'.entries[s.pos - n] == s.entries[s.pos - n];
  }

  lemma UndoFields(s: State, s2: State)
    requires Counted(s) && Reached(s, s2)
    ensures var s' := Undo(s, s2);
      && s' == s2.(slotsUsed := s.slotsUsed, pos := s'.pos, live := s.live, spare := s'.spare)
      && s'.pos == (if s2.size > s.size then |s.live| + |s.spare| else s.pos)
      && |s'.spare| == |s2.live| - |s.live| && Shape(s') && s2.live[..|s.live|] == s.live
  {}

  /** Behind a growth, the entries are too far back by the number of blocks that had been reused. */
  lemma UndoGrown(s: State, s2: State)
    requires Good(s) && Reached(s, s2) && s2.size > s.size && Distinct(s2.live)
    ensures var s' := Undo(s, s2); if s.live != [] && s.spare != [] then Shifted(s', |s.spare|) else Lists(s')
  {
    hide Lists, Slot, Undo;
    ListsShape(s);
    ListsShape(s2);
    UndoFields(s, s2);
    var s', n := Undo(s, s2), |s.live|;
    forall j | 0 <= j < n
      ensures s'.entries[Slot(s'.pos, n, j, s'.size)] == Entry(s.lo + |s.spare| + j, s2.live[|s.spare| + j])
    {
      ListedAt(s2, |s.spare| + j);
      SameSlot(s2.pos, |s2.live|, |s.spare| + j, s'.pos, n, j, s2.size);
    }
    if s.live == [] {
      ListsFrom(s');
    } else if s.spare == [] {
      assert forall j :: 0 <= j < n ==> s2.live[j] == s2.live[..n][j];
      ListsFrom(s');
    }
  }

  lemma UndoUngrown(s: State, s2: State)
    requires Good(s) && Reached(s, s2) && s2.size == s.size
    ensures Lists(Undo(s, s2))
  {
    hide Lists, Slot, Undo;
    ListsShape(s);
    ListsShape(s2);
    UndoFields(s, s2);
    var s', n := Undo(s, s2), |s.live|;
    forall j | 0 <= j < n ensures s'.entries[Slot(s'.pos, n, j, s'.size)] == Entry(s.lo + j, s.live[j]) {
      ListedAt(s2, j);
      assert s2.live[j] == s2.live[..n][j];
      SameSlot(s2.pos, |s2.live|, j, s.pos, n, j, s.size);
    }
    ListsFrom(s');
  }

  /**
   A failed bulk enqueue that was not harmless does harm: the producer need only start more blocks, without
   anything else going wrong, until a consumer that is to take the oldest item arrives at another block.
   */
  lemma HarmComes(s: State, need: nat, room: nat, indexMemory: bool, pool: seq<nat>, more: seq<nat>)
    requires Good(s) && !Bulk(s, need, room, indexMemory, pool).1 && !Harmless(s, room, indexMemory, pool)
    requires |more| > Bulk(s, need, room, indexMemory, pool).0.size && Distinct(s.live + s.spare + pool + more)
    ensures var s' := Bulk(s, need, room, indexMemory, pool).0;
      Shape(s') && s'.live == s.live && s'.lo == s.lo && exists n :: 0 <= n <= |more| && Misled(Starts(s', more[..n]))
  {
    hide Lists, Undo, Bulk, FailsAtOnce, GrowsFirst, Starts, Misled, Distinct;
    ListsShape(s);
    var s' := Bulk(s, need, room, indexMemory, pool).0;
    var s2 := FailureReached(s, need, room, indexMemory, pool);
    UndoFields(s, s2);
    var n := if s2.size > s.size && s.live != [] && s.spare != [] then 1 else s'.size - |s'.live| + 1;
    ReachedDistinct(s, s2, pool, more, n);
    if s2.size > s.size && s.live != [] && s.spare != [] {
      UndoGrown(s, s2);
      ShiftMisleads(s', |s.spare|, more[0]);
      assert more[..1] == [more[0]];
    } else {
      if s2.size > s.size { UndoGrown(s, s2); } else { UndoUngrown(s, s2); }
      ListsShape(s');
      Misleads(s', more[..n]);
    }
  }

  /** The blocks in the list after the failure, and those that come later, are different ones. */
  lemma ReachedDistinct(s: State, s2: State, pool: seq<nat>, more: seq<nat>, n: nat)
    requires Distinct(s.live + s.spare + pool + more) && n <= |more|
    requires |s.live| + |s.spare| <= |s2.live| <= |s.live| + |s.spare| + |pool| && s2.spare == []
    requires s2.live == s.live + s.spare + pool[..|s2.live| - |s.live| - |s.spare|]
    ensures Distinct(s2.live)
    ensures var s' := Undo(s, s2); Distinct(s'.live + s'.spare + more[..n])
  {
    hide Distinct;
    var k := |s2.live| - |s.live| - |s.spare|;
    assert s.live + s.spare + pool + more == s2.live + pool[k..] + more;
    Shortened(s2.live, pool[k..], more);
    assert s2.live + more == s2.live + more[..n] + more[n..] == (s2.live + more[..n]) + more[n..] + [];
    Shortened(s2.live + more[..n], more[n..], []);
    assert s2.live + more[..n] + [] == s2.live + more[..n] == s2.live + more[..n] + [];
    Shortened(s2.live, more[..n], []);
    assert s2.live + [] == s2.live;
    var s' := Undo(s, s2);
    if s.live + s.spare == [] && s2.live != [] {
      var a, b := [s2.live[0]], s2.live[1..];
      assert s2.live[0..] == s2.live == a + b;
      assert s'.live + s'.spare == b + a;
      Swapped(a, b, more[..n]);
    } else {
      assert s'.live + s'.spare == s2.live;
    }
  }

  lemma GrownReached(s: State, s1: State)
    requires Counted(s) && s.slotsUsed == s.size && Lists(s1) && s1.live == s.live + s.spare && s1.spare == []
    requires s1.size == s.size && s1.lo == s.lo && s1.slotsUsed == s.slotsUsed
    ensures var s2 := Grow(s1, s.slotsUsed); Reached(s, s2) && s2.size > s.size
  {
    hide Lists, Grow;
    ListsShape(s1);
    GrowKeepsLists(s1, s.slotsUsed);
    GrowCounts(s1, s.slotsUsed);
  }

  /** How far a bulk enqueue got that failed and was not harmless. */
  lemma FailureReached(s: State, need: nat, room: nat, indexMemory: bool, pool: seq<nat>) returns (s2: State)
    requires Good(s) && !Bulk(s, need, room, indexMemory, pool).1 && !Harmless(s, room, indexMemory, pool)
    ensures Reached(s, s2) && Bulk(s, need, room, indexMemory, pool).0 == Undo(s, s2)
    ensures |s2.live| > |s.live| + |s.spare| || (s2.size > s.size && s.live != [] && s.spare != [])
    ensures |s2.live| <= |s.live| + |s.spare| + |pool|
    ensures s2.live == s.live + s.spare + pool[..|s2.live| - |s.live| - |s.spare|]
  {
    hide Lists, Undo, Bulk, ReuseAhead, Grow, FailsAtOnce, Reached;
    ListsShape(s);
    FailureNeedsMore(s, need, room, indexMemory, pool);
    if FailsAtOnce(s, room, indexMemory, pool) {
      FailedAtOnce(s, need, room, indexMemory, pool);
      ListsShape(ReuseAhead(s, need));
      s2 := Grow(ReuseAhead(s, need), s.slotsUsed);
      GrownReached(s, ReuseAhead(s, need));
      GrowCounts(ReuseAhead(s, need), s.slotsUsed);
      assert pool[..0] == [];
    } else {
      s2 := KeepsABlock(s, need, room, indexMemory, pool);
    }
  }

  lemma ListsFrom(s: State)
    requires Shape(s) && |s.live| <= s.size && |s.live| <= s.pos
    requires forall j :: 0 <= j < |s.live| ==> s.entries[Slot(s.pos, |s.live|, j, s.size)] == Entry(s.lo + j, s.live[j])
    ensures Lists(s)
  {}

  // ----- runs

  datatype Event =
    | EnqueueOne(hasRoom: bool, indexMemory: bool, block: Option<nat>)
    | EnqueueBulk(need: nat, room: nat, indexMemory: bool, pool: seq<nat>)
    | EmptyOldest

  ghost predicate Initial(s: State)
  {
    Shape(s) && s.slotsUsed == 0 && s.pos == 0 && s.lo == 0 && s.live == [] && s.spare == []
  }

  /** An event that is not possible when its turn comes changes nothing. */
  function Step(s: State, e: Event): State
  {
    if s.size == 0 || |s.entries| != s.size then s
    else
      match e
      case EnqueueOne(hasRoom, indexMemory, block) => StartBlock(s, hasRoom, indexMemory, block)
      case EnqueueBulk(need, room, indexMemory, pool) => Bulk(s, need, room, indexMemory, pool).0
      case EmptyOldest => if s.live == [] then s else Empty(s)
  }

  function Play(s: State, es: seq<Event>): State
  {
    Runs.Play(Step, s, es)
  }

  /** The event is not a bulk enqueue that fails and leaves a mark. */
  ghost predicate Clean(s: State, e: Event)
  {
    Shape(s) && e.EnqueueBulk? ==>
      Bulk(s, e.need, e.room, e.indexMemory, e.pool).1 || Harmless(s, e.room, e.indexMemory, e.pool)
  }

  /** Exactly those events keep the books in order. */
  lemma StepGood(s: State, e: Event)
    requires Good(s)
    ensures Good(Step(s, e)) <==> Clean(s, e)
  {
    hide Bulk, StartBlock, Empty, Harmless, Good;
    GoodShape(s);
    match e
    case EnqueueOne(hasRoom, indexMemory, block) => StartBlockKeeps(s, hasRoom, indexMemory, block);
    case EnqueueBulk(need, room, indexMemory, pool) =>
      if Bulk(s, need, room, indexMemory, pool).1 {
        BulkKeeps(s, need, room, indexMemory, pool);
      } else {
        FailureIsHarmless(s, need, room, indexMemory, pool);
      }
    case EmptyOldest => if s.live != [] { EmptyKeeps(s); }
  }

  lemma GoodShape(s: State)
    requires Good(s)
    ensures Shape(s)
  {}

  ghost predicate CleanAt(init: State, es: seq<Event>, n: nat)
    requires n < |es|
  {
    Clean(Play(init, es[..n]), es[n])
  }

  /** In every run of clean events, each block that holds items is found. */
  lemma {:induction false} CleanRunsFind(init: State, es: seq<Event>)
    requires Initial(init) && forall n :: 0 <= n < |es| ==> CleanAt(init, es, n)
    ensures var s := Play(init, es);
      Good(s) && forall j :: 0 <= j < |s.live| ==>
        0 <= s.front < s.size && LookUp(s, s.lo + j) == Entry(s.lo + j, s.live[j])
  {
    if es != [] {
      var front := es[..|es| - 1];
      forall n | 0 <= n < |front| ensures CleanAt(init, front, n) {
        assert CleanAt(init, es, n) && front[..n] == es[..n];
      }
      CleanRunsFind(init, front);
      assert CleanAt(init, es, |es| - 1);
      StepGood(Play(init, front), es[|es| - 1]);
    }
    var s := Play(init, es);
    forall j | 0 <= j < |s.live|
      ensures 0 <= s.front < s.size && LookUp(s, s.lo + j) == Entry(s.lo + j, s.live[j])
    {
      GoodFinds(s, j);
    }
  }

  /** An index for two blocks, before anything has been enqueued. */
  const Fresh: State := State(2, 0, 0, [Entry(0, 0), Entry(0, 0)], 0, 0, [], [])

  /**
   Such a run: block 1 is filled; a bulk enqueue gets block 2, but no larger index for a second one, and
   fails; blocks 2 and 3 are filled, and the entry of block 3 is written over that of block 1.
   */
  lemma FailureMisleads()
    ensures Initial(Fresh)
    ensures var s := Play(Fresh, [EnqueueOne(true, true, Some(1)), EnqueueBulk(2, 5, false, [2]),
                                  EnqueueOne(true, false, None), EnqueueOne(true, false, Some(3))]);
      s.live == [1, 2, 3] && s.lo == 0 && Misled(s) && LookUp(s, 0).block == 3
  {
    hide Step;
    var a, b := EnqueueOne(true, true, Some(1)), EnqueueBulk(2, 5, false, [2]);
    var c, d := EnqueueOne(true, false, None), EnqueueOne(true, false, Some(3));
    Runs.PlayFirst(Step, Fresh, [a, b, c, d]);
    assert [a, b, c, d][1..] == [b, c, d];
    var s1 := FirstBlock();
    var s2 := SecondFails();
    var s4 := OverTheFirst();
    Runs.PlayThree(Step, s1, b, c, d);
  }

  lemma FirstBlock() returns (s: State)
    ensures s == State(2, 1, 1, [Entry(0, 1), Entry(0, 0)], 0, 0, [1], [])
    ensures s == Step(Fresh, EnqueueOne(true, true, Some(1)))
  {
    s := Step(Fresh, EnqueueOne(true, true, Some(1)));
    assert s.entries == [Entry(0, 1), Entry(0, 0)];
  }

  lemma SecondFails() returns (s: State)
    ensures s == State(2, 1, 1, [Entry(0, 1), Entry(1, 2)], 0, 0, [1], [2])
    ensures s == Step(State(2, 1, 1, [Entry(0, 1), Entry(0, 0)], 0, 0, [1], []), EnqueueBulk(2, 5, false, [2]))
  {
    var s0 := State(2, 1, 1, [Entry(0, 1), Entry(0, 0)], 0, 0, [1], []);
    var s1 := Add(s0, 2);
    assert s1 == State(2, 2, 2, [Entry(0, 1), Entry(1, 2)], 0, 0, [1, 2], []);
    assert [2][1..] == [];
    assert AddRest(s1, 1, 4, false, [], 1) == (s1, false);
    assert AddRest(s0, 2, 5, false, [2], 1) == (s1, false);
    assert ReuseAhead(s0, 2) == s0;
    s := Undo(s0, s1);
    assert [1, 2][1..] == [2];
  }

  lemma OverTheFirst() returns (s: State)
    ensures s == State(2, 2, 3, [Entry(2, 3), Entry(1, 2)], 0, 0, [1, 2, 3], [])
    ensures var s2 := State(2, 1, 1, [Entry(0, 1), Entry(1, 2)], 0, 0, [1], [2]);
      s == Step(Step(s2, EnqueueOne(true, false, None)), EnqueueOne(true, false, Some(3)))
  {
    var s2 := State(2, 1, 1, [Entry(0, 1), Entry(1, 2)], 0, 0, [1], [2]);
    var s3 := Step(s2, EnqueueOne(true, false, None));
    assert s3 == State(2, 1, 2, [Entry(0, 1), Entry(1, 2)], 1, 0, [1, 2], []);
    s := Step(s3, EnqueueOne(true, false, Some(3)));
    assert s.entries == [Entry(2, 3), Entry(1, 2)] && s.live == [1, 2, 3];
  }
}
