/**
 The block index of an implicit producer: a circular array of pointers to entries, each with the base
 index of a block and the block itself.  Blocks are given back in any order, which clears their
 entries; when the next entry is still in use, the index doubles, and the entries stay where they are.
 */
module ImplicitIndex {
  import opened CircularIndex
  import opened Sequences
  import opened Wrappers

  /** `key` is absent when it is INVALID_BLOCK_BASE, `value` when the pointer is null. */
  datatype Entry = Entry(key: Option<nat>, value: Option<nat>)

  // ----- the index as a sequence of entries, from the newest back

  /** The base that the entry at distance `d` from the newest stands for. */
  function BaseAt(newest: int, d: nat, size: nat): int
  {
    newest - d * size
  }

  /** The entry has a block. */
  predicate Used(e: Entry) { e.value.Some? }

  /** The entries up to distance `d` have the keys they stand for. */
  ghost predicate KeysUpTo(view: seq<Entry>, newest: int, size: nat, d: nat)
  {
    d < |view| && forall k :: 0 <= k <= d ==> KeyIs(view[k], BaseAt(newest, k, size))
  }

  predicate KeyIs(e: Entry, base: int)
  {
    e.key.Some? && e.key.value == base
  }

  /** Block base `b` is at distance `d`, and all the keys from the newest to there are right. */
  ghost predicate FoundAt(view: seq<Entry>, newest: int, size: nat, live: map<nat, nat>, b: nat, d: nat)
  {
    && KeysUpTo(view, newest, size, d)
    && b in live && BaseAt(newest, d, size) == b && view[d].value == Some(live[b])
  }

  ghost predicate Found(view: seq<Entry>, newest: int, size: nat, live: map<nat, nat>, b: nat)
  {
    exists d: nat :: FoundAt(view, newest, size, live, b, d)
  }

  /** Each live block is found at its place, and only live blocks are in the index. */
  ghost predicate ViewOk(view: seq<Entry>, newest: int, size: nat, live: map<nat, nat>)
  {
    && (forall b :: b in live ==> Found(view, newest, size, live, b))
    && (forall d :: 0 <= d < |view| && Used(view[d]) ==> LiveAt(view[d], BaseAt(newest, d, size), live))
  }

  predicate LiveAt(e: Entry, base: int, live: map<nat, nat>)
  {
    base >= 0 && base in live && e.value == Some(live[base])
  }

  lemma Farther(newest: int, d: nat, size: nat)
    ensures BaseAt(newest + size, d + 1, size) == BaseAt(newest, d, size)
    ensures d > 0 ==> BaseAt(newest - size, d - 1, size) == BaseAt(newest, d, size)
    ensures BaseAt(newest, 0, size) == newest
  {
    assert (d + 1) * size == d * size + size;
    assert d > 0 ==> (d - 1) * size == d * size - size;
  }

  lemma DistancesDiffer(newest: int, d: nat, e: nat, size: nat)
    requires size > 0 && BaseAt(newest, d, size) == BaseAt(newest, e, size)
    ensures d == e
  {
    assert (d - e) * size == 0;
    ProductAtLeast(d - e, size);
  }

  /** A new newest entry takes the place of the oldest, which is not in use. */
  lemma InsertKeepsView(view: seq<Entry>, newest: int, size: nat, live: map<nat, nat>, start: nat)
    requires ViewOk(view, newest, size, live) && view != [] && !Used(view[|view| - 1]) && start == newest + size
    ensures ViewOk([Entry(Some(start), None)] + view[..|view| - 1], start, size, live)
  {
    var view' := [Entry(Some(start), None)] + view[..|view| - 1];
    forall d: nat
      ensures d < |view| - 1 ==> BaseAt(start, d + 1, size) == BaseAt(newest, d, size) && view'[d + 1] == view[d]
    {
      Farther(newest, d, size);
    }
    Farther(start, 0, size);
    forall b | b in live ensures Found(view', start, size, live, b) {
      var d: nat :| FoundAt(view, newest, size, live, b, d);
      var d' := d + 1;
      forall k | 0 < k <= d' ensures KeyIs(view'[k], BaseAt(start, k, size)) {
        Farther(newest, k - 1, size);
        assert KeyIs(view[k - 1], BaseAt(newest, k - 1, size));
      }
      assert FoundAt(view', start, size, live, b, d');
    }
    forall d | 0 <= d < |view'| && Used(view'[d]) ensures LiveAt(view'[d], BaseAt(start, d, size), live) {
      assert d > 0 && Used(view[d - 1]);
    }
  }

  /** The block for the newest entry. */
  lemma SetKeepsView(view: seq<Entry>, newest: nat, size: nat, live: map<nat, nat>, block: nat)
    requires ViewOk(view, newest, size, live) && view != [] && view[0] == Entry(Some(newest), None) && newest !in live
    ensures ViewOk(view[0 := Entry(Some(newest), Some(block))], newest, size, live[newest := block])
  {
    var view', live' := view[0 := Entry(Some(newest), Some(block))], live[newest := block];
    Farther(newest, 0, size);
    forall b | b in live' ensures Found(view', newest, size, live', b) {
      if b == newest {
        assert FoundAt(view', newest, size, live', b, 0);
      } else {
        var d: nat :| FoundAt(view, newest, size, live, b, d);
        assert forall k :: 0 <= k <= d ==> KeyIs(view[k], BaseAt(newest, k, size));
        assert FoundAt(view', newest, size, live', b, d);
      }
    }
    forall d | 0 <= d < |view'| && Used(view'[d]) ensures LiveAt(view'[d], BaseAt(newest, d, size), live') {
      if d > 0 { assert Used(view[d]); }
    }
  }

  /** Giving back a block clears its entry, wherever it is. */
  lemma ReleaseKeepsView(view: seq<Entry>, newest: int, size: nat, live: map<nat, nat>, b: nat, d: nat)
    requires size > 0 && ViewOk(view, newest, size, live) && FoundAt(view, newest, size, live, b, d)
    ensures ViewOk(view[d := view[d].(value := None)], newest, size, live - {b})
  {
    var view', live' := view[d := view[d].(value := None)], live - {b};
    forall c | c in live' ensures Found(view', newest, size, live', c) {
      var e: nat :| FoundAt(view, newest, size, live, c, e);
      assert forall k :: 0 <= k <= e ==> KeyIs(view[k], BaseAt(newest, k, size));
      assert FoundAt(view', newest, size, live', c, e);
    }
    forall e | 0 <= e < |view'| && Used(view'[e]) ensures LiveAt(view'[e], BaseAt(newest, e, size), live') {
      assert Used(view[e]);
      if BaseAt(newest, e, size) == b { DistancesDiffer(newest, d, e, size); }
    }
  }

  /** Stepping back from a newest entry without a block. */
  lemma RewindKeepsView(view: seq<Entry>, newest: int, size: nat, live: map<nat, nat>)
    requires size > 0 && ViewOk(view, newest, size, live) && view != [] && !Used(view[0])
    ensures ViewOk(view[1..] + [view[0]], newest - size, size, live)
  {
    var view', newest' := view[1..] + [view[0]], newest - size;
    forall d: nat
      ensures 0 < d < |view| ==> BaseAt(newest', d - 1, size) == BaseAt(newest, d, size) && view'[d - 1] == view[d]
    {
      Farther(newest, d, size);
    }
    forall b | b in live ensures Found(view', newest', size, live, b) {
      var d: nat :| FoundAt(view, newest, size, live, b, d);
      assert d > 0;
      forall k | 0 <= k <= d - 1 ensures KeyIs(view'[k], BaseAt(newest', k, size)) {
        Farther(newest, k + 1, size);
        assert KeyIs(view[k + 1], BaseAt(newest, k + 1, size));
      }
      assert FoundAt(view', newest', size, live, b, d - 1);
    }
    forall d | 0 <= d < |view'| && Used(view'[d]) ensures LiveAt(view'[d], BaseAt(newest', d, size), live) {
      assert d < |view| - 1 && Used(view[d + 1]);
      assert BaseAt(newest', d + 1 - 1, size) == BaseAt(newest, d + 1, size);
    }
  }

  /** New entries, with an invalid key. */
  function Unused(n: nat): seq<Entry>
  {
    seq(n, _ => Entry(None, None))
  }

  function FreshAddresses(start: nat, n: nat): seq<nat>
  {
    seq(n, i => start + i)
  }

  /** Entries without a block, behind the oldest. */
  lemma GrowKeepsView(view: seq<Entry>, newest: int, size: nat, live: map<nat, nat>, n: nat)
    requires ViewOk(view, newest, size, live)
    ensures ViewOk(view + Unused(n), newest, size, live)
  {
    var view' := view + Unused(n);
    forall b | b in live ensures Found(view', newest, size, live, b) {
      var d: nat :| FoundAt(view, newest, size, live, b, d);
      assert forall k :: 0 <= k <= d ==> KeyIs(view[k], BaseAt(newest, k, size));
      assert FoundAt(view', newest, size, live, b, d);
    }
    forall d | 0 <= d < |view'| && Used(view'[d]) ensures LiveAt(view'[d], BaseAt(newest, d, size), live) {
      assert d < |view| && Used(view[d]);
    }
  }

  /** An entry with a block has the key it stands for. */
  lemma UsedHasKey(view: seq<Entry>, newest: int, size: nat, live: map<nat, nat>, d: nat)
    requires size > 0 && ViewOk(view, newest, size, live) && d < |view| && Used(view[d])
    ensures BaseAt(newest, d, size) >= 0 && FoundAt(view, newest, size, live, BaseAt(newest, d, size), d)
    ensures KeyIs(view[d], BaseAt(newest, d, size))
  {
    assert LiveAt(view[d], BaseAt(newest, d, size), live);
    var b: nat := BaseAt(newest, d, size);
    assert Found(view, newest, size, live, b);
    var e: nat :| FoundAt(view, newest, size, live, b, e);
    DistancesDiffer(newest, d, e, size);
  }

  lemma OffsetOf(newest: int, d: nat, size: nat)
    requires size > 0
    ensures TruncatedDivision(BaseAt(newest, d, size) - newest, size) == 0 - d
  {
    assert (0 - d) * size == 0 - d * size;
    DivisionOfMultiple(0 - d, size);
  }

  // ----- the circular array

  /** The slot at distance `d` behind the tail. */
  function SlotAt(tail: int, d: int, capacity: nat): nat
    requires capacity > 0
  {
    (tail - d) % capacity
  }

  lemma SlotsApart(tail: nat, d: nat, e: nat, capacity: nat)
    requires d < e < capacity
    ensures SlotAt(tail, d, capacity) != SlotAt(tail, e, capacity)
  {
    SlotsDiffer(tail - e, tail - d, capacity);
  }

  lemma FullTurn(tail: nat, capacity: nat)
    requires tail < capacity
    ensures SlotAt(tail, capacity, capacity) == tail == SlotAt(tail, 0, capacity)
  {
    RemainderOfShift(tail, -1, capacity);
    assert tail + -1 * capacity == tail - capacity;
    RemainderIsUnique(tail, 0, tail, capacity);
  }

  lemma NextSlotAt(tail: nat, d: nat, capacity: nat)
    requires capacity > 0
    ensures (SlotAt(tail, d, capacity) + 1) % capacity == SlotAt(tail, d - 1, capacity)
  {
    RemainderOfSum(tail - d, 1, capacity);
    assert tail - d + 1 == tail - (d - 1);
  }

  lemma NextTail(tail: nat, d: int, capacity: nat)
    requires tail < capacity
    ensures SlotAt((tail + 1) % capacity, d + 1, capacity) == SlotAt(tail, d, capacity)
    ensures SlotAt((tail + 1) % capacity, 0, capacity) == (tail + 1) % capacity == SlotAt(tail, capacity - 1, capacity)
  {
    RemainderOfSum(tail + 1, 0 - (d + 1), capacity);
    assert tail + 1 + (0 - (d + 1)) == tail - d;
    RemainderOfSum(tail + 1, 0, capacity);
    RemainderOfShift(tail + 1, -1, capacity);
    assert tail + 1 + -1 * capacity == tail - (capacity - 1);
  }

  lemma PreviousTail(tail: nat, d: int, capacity: nat)
    requires tail < capacity
    ensures SlotAt((tail - 1) % capacity, d, capacity) == SlotAt(tail, d + 1, capacity)
    ensures SlotAt((tail - 1) % capacity, capacity - 1, capacity) == SlotAt(tail, 0, capacity) == tail
  {
    RemainderOfSum(tail - 1, 0 - d, capacity);
    assert tail - 1 + (0 - d) == tail - (d + 1);
    RemainderOfSum(tail - 1, 0 - (capacity - 1), capacity);
    RemainderOfShift(tail, -1, capacity);
    assert tail - 1 + (0 - (capacity - 1)) == tail + -1 * capacity;
    RemainderIsUnique(tail, 0, tail, capacity);
  }

  /** The entries, from the one at the tail back. */
  ghost function ViewOf(entries: seq<Entry>, index: seq<nat>, tail: nat): seq<Entry>
    requires index != [] && forall i :: 0 <= i < |index| ==> index[i] < |entries|
  {
    seq(|index|, d requires 0 <= d < |index| => entries[index[SlotAt(tail, d, |index|)]])
  }

  ghost predicate InRange(index: seq<nat>, n: nat)
  {
    forall i :: 0 <= i < |index| ==> index[i] < n
  }

  /** Writing the entry at distance `d` changes the view there and nowhere else. */
  lemma WriteEntry(entries: seq<Entry>, index: seq<nat>, tail: nat, d: nat, e: Entry)
    requires index != [] && InRange(index, |entries|) && Distinct(index) && d < |index|
    ensures var at := index[SlotAt(tail, d, |index|)];
      ViewOf(entries[at := e], index, tail) == ViewOf(entries, index, tail)[d := e]
  {
    var at := index[SlotAt(tail, d, |index|)];
    forall k | 0 <= k < |index| && k != d ensures index[SlotAt(tail, k, |index|)] != at {
      if k < d { SlotsApart(tail, k, d, |index|); } else { SlotsApart(tail, d, k, |index|); }
    }
  }

  /** Moving the tail on makes the oldest entry the newest. */
  lemma MoveTail(entries: seq<Entry>, index: seq<nat>, tail: nat)
    requires index != [] && InRange(index, |entries|) && tail < |index|
    ensures var view := ViewOf(entries, index, tail); var n := |index|;
      && ViewOf(entries, index, (tail + 1) % n) == [view[n - 1]] + view[..n - 1]
      && ViewOf(entries, index, (tail - 1) % n) == view[1..] + [view[0]]
  {
    var n := |index|;
    var view := ViewOf(entries, index, tail);
    var next, previous := ViewOf(entries, index, (tail + 1) % n), ViewOf(entries, index, (tail - 1) % n);
    NextTail(tail, 0, n);
    PreviousTail(tail, 0, n);
    forall d | 0 < d < n ensures next[d] == view[d - 1] { NextTail(tail, d - 1, n); }
    forall d | 0 <= d < n - 1 ensures previous[d] == view[d + 1] { PreviousTail(tail, d, n); }
  }

  class ImplicitIndex {
    const size: nat                // of a block
    var hasIndex: bool             // the allocation in the constructor has succeeded
    var entries: seq<Entry>        // by address
    var index: seq<nat>            // addresses of entries
    var tail: nat
    var nextCapacity: nat

    ghost var newest: int          // the base that the entry at the tail stands for
    ghost var live: map<nat, nat>  // the blocks in the index, by base

    ghost predicate ArrayOk()
      reads this
    {
      && 2 <= |index| && tail < |index| && nextCapacity == 2 * |index|
      && InRange(index, |entries|) && Distinct(index)
    }

    ghost predicate Valid()
      reads this
    {
      && size > 1
      && if hasIndex then ArrayOk() && ViewOk(ViewOf(entries, index, tail), newest, size, live)
         else index == [] && live == map[] && nextCapacity >= 2 && newest == 0 - size
    }

    constructor (size: nat, initialIndexSize: nat, gotMemory: bool)
      requires size > 1 && initialIndexSize > 1
      ensures Valid() && hasIndex == gotMemory && live == map[] && newest == 0 - size && this.size == size
    {
      this.size, hasIndex, entries, index, tail, nextCapacity := size, false, [], [], 0, initialIndexSize;
      newest, live := 0 - size, map[];
      new;
      var _ := NewBlockIndex(gotMemory);
    }

    /** The next entry can be taken. */
    predicate NextIsFree()
      reads this
      requires ArrayOk()
    {
      var e := entries[index[(tail + 1) % |index|]];
      e.key == None || e.value == None
    }

    lemma NextIsOldest()
      requires ArrayOk()
      ensures var view := ViewOf(entries, index, tail);
        |view| == |index| && view[|view| - 1] == entries[index[(tail + 1) % |index|]]
    {
      NextTail(tail, 0, |index|);
    }

    /**
     Takes the next entry for the block that starts at `start`, the base after the newest one.  It fails
     exactly when there is no index, or the next entry is in use and there is no memory for more.
     */
    method InsertEntry(start: nat, gotMemory: bool) returns (ok: bool, idxEntry: nat)
      requires Valid() && start == newest + size
      modifies this
      ensures Valid() && live == old(live) && newest == (if ok then start else old(newest))
      ensures ok == old(hasIndex && (NextIsFree() || gotMemory))
      ensures ok ==> hasIndex && ArrayOk() && idxEntry == index[tail] && entries[idxEntry] == Entry(Some(start), None)
      ensures ok ==> start !in live
      ensures EntriesStay(old(entries), old(index))
    {
      idxEntry := 0;
      if !hasIndex {
        return false, idxEntry;
      }
      FreeIsUnused();
      LiveIsOld();
      var newTail := (tail + 1) % |index|;
      idxEntry := index[newTail];
      ok := true;
      if entries[idxEntry].key != None && entries[idxEntry].value != None {
        ok := NewBlockIndex(gotMemory);
      }
      if ok {
        TakeEntry(start);
        idxEntry := index[tail];
      }
    }

    /** Entries with a block keep their address, their contents and their place in the index. */
    ghost predicate EntriesStay(entries': seq<Entry>, index': seq<nat>)
      reads `entries, `index
    {
      forall a :: a in index' && a < |entries'| && Used(entries'[a]) ==>
        a in index && a < |entries| && entries[a] == entries'[a]
    }

    lemma LiveIsOld()
      requires Valid()
      ensures forall b :: b in live ==> b <= newest
    {
      if hasIndex {
        forall b | b in live ensures b <= newest {
          var d: nat :| FoundAt(ViewOf(entries, index, tail), newest, size, live, b, d);
          assert d * size >= 0;
        }
      }
    }

    /** An entry is free just when it has no block: one with a block has a key. */
    lemma FreeIsUnused()
      requires Valid() && hasIndex
      ensures NextIsFree() <==> !Used(entries[index[(tail + 1) % |index|]])
    {
      var view := ViewOf(entries, index, tail);
      NextIsOldest();
      if Used(view[|view| - 1]) { UsedHasKey(view, newest, size, live, |view| - 1); }
    }

    /** Writes the key of the next entry, and moves the tail to it. */
    method TakeEntry(start: nat)
      requires Valid() && hasIndex && start == newest + size && !Used(entries[index[(tail + 1) % |index|]])
      modifies `entries, `tail, `newest
      ensures Valid() && newest == start && entries[index[tail]] == Entry(Some(start), None)
      ensures EntriesStay(old(entries), old(index))
    {
      hide ViewOk, ViewOf;
      var n, newTail := |index|, (tail + 1) % |index|;
      ghost var e := Entry(Some(start), None);
      TakeFacts(start);
      entries := entries[index[newTail] := entries[index[newTail]].(key := Some(start))];
      tail := newTail;
      newest := start;
    }

    lemma TakeFacts(start: nat)
      requires Valid() && hasIndex && start == newest + size && !Used(entries[index[(tail + 1) % |index|]])
      ensures var at := index[(tail + 1) % |index|];
        var entries' := entries[at := entries[at].(key := Some(start))];
        && entries[at].(key := Some(start)) == Entry(Some(start), None)
        && ViewOk(ViewOf(entries', index, (tail + 1) % |index|), start, size, live)
    {
      hide ViewOk, SlotAt;
      var n, view, e := |index|, ViewOf(entries, index, tail), Entry(Some(start), None);
      NextIsOldest();
      NextTail(tail, 0, n);
      WriteEntry(entries, index, tail, n - 1, e);
      var at := index[(tail + 1) % n];
      MoveTail(entries[at := e], index, tail);
      InsertKeepsView(view, newest, size, live, start);
      assert [e] + view[n - 1 := e][..n - 1] == [e] + view[..n - 1];
    }

    /** The block for the entry just inserted. */
    method SetValue(idxEntry: nat, block: nat)
      requires Valid() && hasIndex && newest >= 0 && newest !in live
      requires idxEntry == index[tail] && entries[idxEntry] == Entry(Some(newest), None)
      modifies `entries, `live
      ensures Valid() && live == old(live)[newest := block]
      ensures EntriesStay(old(entries), old(index))
    {
      PreviousTail(tail, 0, |index|);
      WriteEntry(entries, index, tail, 0, Entry(Some(newest), Some(block)));
      SetKeepsView(ViewOf(entries, index, tail), newest, size, live, block);
      entries := entries[idxEntry := entries[idxEntry].(value := Some(block))];
      live := live[newest := block];
    }

    /** `rewind_block_index_tail`, after an insertion for which no block could be had. */
    method Rewind()
      requires Valid() && hasIndex && entries[index[tail]].value == None
      modifies `tail, `newest
      ensures Valid() && newest == old(newest) - size
      ensures EntriesStay(old(entries), old(index))
    {
      hide ViewOk, ViewOf, InRange, Distinct;
      RewindFacts();
      tail := (tail - 1) % |index|;
      newest := newest - size;
    }

    lemma RewindFacts()
      requires Valid() && hasIndex && entries[index[tail]].value == None
      ensures ViewOk(ViewOf(entries, index, (tail - 1) % |index|), newest - size, size, live)
    {
      hide ViewOk, SlotAt;
      PreviousTail(tail, 0, |index|);
      MoveTail(entries, index, tail);
      assert ViewOf(entries, index, tail)[0] == entries[index[tail]];
      RewindKeepsView(ViewOf(entries, index, tail), newest, size, live);
    }

    /** A consumer that has emptied the block clears its entry, of which it has kept the address. */
    method GiveBack(entry: nat, ghost b: nat)
      requires Valid() && hasIndex && entry in index && b in live && entries[entry] == Entry(Some(b), Some(live[b]))
      modifies `entries, `live
      ensures Valid() && live == old(live) - {b}
    {
      var d := DistanceOf(entry, b);
      WriteEntry(entries, index, tail, d, entries[entry].(value := None));
      ReleaseKeepsView(ViewOf(entries, index, tail), newest, size, live, b, d);
      entries := entries[entry := entries[entry].(value := None)];
      live := live - {b};
    }

    lemma DistanceOf(entry: nat, b: nat) returns (d: nat)
      requires Valid() && hasIndex && entry in index && entries[entry].value.Some? && entries[entry].key == Some(b)
      ensures d < |index| && index[SlotAt(tail, d, |index|)] == entry
      ensures FoundAt(ViewOf(entries, index, tail), newest, size, live, b, d)
    {
      var view := ViewOf(entries, index, tail);
      var i :| 0 <= i < |index| && index[i] == entry;
      d := (tail - i) % |index|;
      BackToSlot(i);
      assert view[d] == entries[entry];
      UsedHasKey(view, newest, size, live, d);
    }

    /**
     The entry for an index of a live block: whatever has been inserted, taken back, given back or
     doubled since, its key is the base of that block, and its value the block.
     */
    method LookUp(i: nat) returns (slot: nat)
      requires Valid() && BlockBase(i, size) in live
      ensures hasIndex && slot < |index|
      ensures var b := BlockBase(i, size); entries[index[slot]] == Entry(Some(b), Some(live[b]))
    {
      EntryFound(i);
      var base := BlockBase(i, size);
      var tailBase := entries[index[tail]].key.value;
      var offset := TruncatedDivision(base - tailBase, size);
      slot := (tail + offset) % |index|;
    }

    /** The newest entry has a base, from which the offset leads to the entry of the block. */
    lemma EntryFound(i: nat)
      requires Valid() && BlockBase(i, size) in live
      ensures hasIndex && tail < |index| && index[tail] < |entries| && entries[index[tail]].key.Some?
      ensures entries[index[tail]].key.value % size == 0
      ensures var b, tailBase := BlockBase(i, size), entries[index[tail]].key.value;
        var slot := (tail + TruncatedDivision(b - tailBase, size)) % |index|;
        index[slot] < |entries| && entries[index[slot]] == Entry(Some(b), Some(live[b]))
    {
      var base := BlockBase(i, size);
      var view := ViewOf(entries, index, tail);
      var d: nat :| FoundAt(view, newest, size, live, base, d);
      PreviousTail(tail, 0, |index|);
      assert view[0] == entries[index[tail]];
      assert KeyIs(view[0], BaseAt(newest, 0, size)) && KeyIs(view[d], BaseAt(newest, d, size));
      OffsetOf(newest, d, size);
      assert (tail + (0 - d)) % |index| == SlotAt(tail, d, |index|);
      NewestIsBase(i, d);
    }

    lemma NewestIsBase(i: nat, d: nat)
      requires size > 1 && BaseAt(newest, d, size) == BlockBase(i, size)
      ensures newest % size == 0
    {
      hide BlockBase;
      BlockStart(i);
      RemainderOfShift(BlockBase(i, size), d, size);
    }

    lemma BlockStart(i: nat)
      requires size > 1
      ensures BlockBase(i, size) % size == 0
    {
      RemainderIsUnique(BlockBase(i, size), i / size, 0, size);
    }

    /** The source makes this computation on words, and finds the same entry, however far the tail has gone on. */
    lemma LookUpOnWords(i: nat, half: int, turns: nat)
      requires Valid() && BlockBase(i, size) in live && half > 0 && 2 * half == turns * |index| * size
      ensures hasIndex && tail < |index| && index[tail] < |entries| && entries[index[tail]].key.Some?
      ensures var b, tailBase := BlockBase(i, size), entries[index[tail]].key.value;
        var slot := SlotOf(Wrap(i, half), tail, Wrap(tailBase, half), size, |index|, half);
        index[slot] < |entries| && entries[index[slot]] == Entry(Some(b), Some(live[b]))
    {
      hide Valid, SlotOf, Wrap, BlockBase, TruncatedDivision;
      EntryFound(i);
      SlotOnWords(i, tail, entries[index[tail]].key.value, size, |index|, half, turns * |index|, turns);
    }

    // ----- a larger index

    /** Doubles the index, the old one's entries first, from the oldest to the newest. */
    method NewBlockIndex(gotMemory: bool) returns (ok: bool)
      requires Valid()
      modifies `hasIndex, `entries, `index, `tail, `nextCapacity
      ensures Valid() && ok == gotMemory
      ensures EntriesStay(old(entries), old(index))
      ensures ok ==> hasIndex && !Used(entries[index[(tail + 1) % |index|]])
      ensures !ok ==> unchanged(this)
    {
      hide ViewOk, ViewOf, InRange, Distinct, Doubled, EntriesStay;
      ok := gotMemory;
      if !gotMemory {
        NothingMoved();
        return;
      }
      var prevCapacity := if hasIndex then |index| else 0;
      var entryCount := if hasIndex then prevCapacity else nextCapacity;
      var newIndex := Rotated(entryCount);
      if hasIndex {
        GrownFacts(newIndex);
        GrownDistinct(newIndex);
      } else {
        FirstFacts(newIndex);
      }
      entries := entries + Unused(entryCount);
      index := newIndex;
      tail := (prevCapacity - 1) % nextCapacity;
      nextCapacity := 2 * nextCapacity;
      hasIndex := true;
      LongerStays(old(entries), old(index), entryCount);
    }

    lemma LongerStays(entries': seq<Entry>, index': seq<nat>, n: nat)
      requires entries == entries' + Unused(n) && forall a :: a in index' ==> a in index
      ensures EntriesStay(entries', index')
    {}

    lemma NothingMoved()
      ensures EntriesStay(entries, index)
    {}

    /** The first index has no blocks. */
    lemma FirstFacts(newIndex: seq<nat>)
      requires Valid() && !hasIndex && newIndex == FreshAddresses(|entries|, nextCapacity)
      ensures var tail', entries' := (0 - 1) % nextCapacity, entries + Unused(nextCapacity);
        && |newIndex| == nextCapacity && tail' < nextCapacity && InRange(newIndex, |entries'|) && Distinct(newIndex)
        && ViewOk(ViewOf(entries', newIndex, tail'), newest, size, live)
        && !Used(entries'[newIndex[(tail' + 1) % nextCapacity]])
    {}

    /** The old addresses, oldest first, and then new ones. */
    ghost predicate Doubled(newIndex: seq<nat>)
      reads this
      requires hasIndex && ArrayOk()
    {
      && |newIndex| == 2 * |index|
      && (forall i :: 0 <= i < |index| ==> newIndex[i] == index[SlotAt(tail, |index| - 1 - i, |index|)])
      && (forall i :: |index| <= i < |newIndex| ==> newIndex[i] == |entries| + (i - |index|))
    }

    /** The larger index shows the same entries, and behind them unused ones. */
    lemma GrownFacts(newIndex: seq<nat>)
      requires Valid() && hasIndex && Doubled(newIndex)
      ensures var n := |index|; var tail', entries' := (n - 1) % nextCapacity, entries + Unused(n);
        && |newIndex| == nextCapacity && tail' < nextCapacity && InRange(newIndex, |entries'|) && Distinct(newIndex)
        && ViewOk(ViewOf(entries', newIndex, tail'), newest, size, live)
        && !Used(entries'[newIndex[(tail' + 1) % nextCapacity]])
    {
      hide ViewOk;
      var n := |index|;
      RemainderIsUnique(n - 1, 0, n - 1, 2 * n);
      RemainderIsUnique(n, 0, n, 2 * n);
      GrownDistinct(newIndex);
      GrownView(newIndex);
      GrowKeepsView(ViewOf(entries, index, tail), newest, size, live, n);
    }

    lemma GrownDistinct(newIndex: seq<nat>)
      requires hasIndex && ArrayOk() && Doubled(newIndex)
      ensures InRange(newIndex, |entries| + |index|) && Distinct(newIndex)
      ensures forall a :: a in index ==> a in newIndex
    {
      var n := |index|;
      forall i, j | 0 <= i < j < n ensures newIndex[i] != newIndex[j] {
        SlotsApart(tail, n - 1 - j, n - 1 - i, n);
      }
      forall a | a in index ensures a in newIndex {
        var i :| 0 <= i < n && index[i] == a;
        var d := (tail - i) % n;
        BackToSlot(i);
        assert newIndex[n - 1 - d] == index[SlotAt(tail, d, n)];
      }
    }

    lemma BackToSlot(i: nat)
      requires index != [] && i < |index|
      ensures SlotAt(tail, (tail - i) % |index|, |index|) == i
    {
      RemainderOfSum(tail - i, tail, |index|);
      assert tail - (tail - i) == i;
      RemainderIsUnique(i, 0, i, |index|);
    }

    lemma GrownView(newIndex: seq<nat>)
      requires hasIndex && ArrayOk() && Doubled(newIndex) && InRange(newIndex, |entries| + |index|)
      ensures var n := |index|;
        ViewOf(entries + Unused(n), newIndex, n - 1) == ViewOf(entries, index, tail) + Unused(n)
    {
      var n := |index|;
      var view, view' := ViewOf(entries, index, tail), ViewOf(entries + Unused(n), newIndex, n - 1);
      forall d | 0 <= d < 2 * n ensures view'[d] == (view + Unused(n))[d] {
        if d < n { RemainderIsUnique(n - 1 - d, 0, n - 1 - d, 2 * n); }
        else { RemainderIsUnique(n - 1 - d, -1, 3 * n - 1 - d, 2 * n); }
      }
    }

    /** The old index from the oldest entry to the newest, and then new addresses. */
    method Rotated(entryCount: nat) returns (newIndex: seq<nat>)
      requires Valid() && (hasIndex ==> entryCount == |index|)
      ensures if hasIndex then Doubled(newIndex) else newIndex == FreshAddresses(|entries|, entryCount)
    {
      hide ViewOk, ViewOf, InRange, Distinct;
      newIndex := [];
      if hasIndex {
        var n, prevPos := |index|, tail;
        FullTurn(tail, n);
        while true
          invariant |newIndex| < n && prevPos == SlotAt(tail, n - |newIndex|, n)
          invariant forall i :: 0 <= i < |newIndex| ==> newIndex[i] == index[SlotAt(tail, n - 1 - i, n)]
          decreases n - |newIndex|
        {
          NextSlotAt(tail, n - |newIndex|, n);
          prevPos := (prevPos + 1) % n;
          newIndex := newIndex + [index[prevPos]];
          if |newIndex| < n { SlotsApart(tail, 0, n - |newIndex|, n); }
          if prevPos == tail {
            break;
          }
        }
      }
      newIndex := newIndex + FreshAddresses(|entries|, entryCount);
    }
  }
}
