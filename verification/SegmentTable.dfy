/**
 The segmented array of buckets: a table of pointers to segments that double in size, of which the
 first eight lie in two allocations.  It refines a sequence that only grows at its end.
 */
module SegmentTable {
  import opened PowersOfTwo
  import opened Wrappers

  const FirstBlock: nat := 8
  const EmbeddedBuckets: nat := 2

  /** `log2(index | 1)`. */
  function SegmentIndexOf(index: nat): nat
  {
    Log2(if index % 2 == 0 then index + 1 else index)
  }

  /** `1 << k & ~1`. */
  function SegmentBase(k: nat): nat
  {
    Pow2(k) / 2 * 2
  }

  function SegmentSize(k: nat): nat
  {
    Pow2(k)
  }

  /** The buckets of segment `k`, which for the zero segment are twice what `segment_size` says. */
  function Buckets(k: nat): nat
  {
    if k == 0 then EmbeddedBuckets else SegmentSize(k)
  }

  lemma SmallPowers()
    ensures Pow2(0) == 1 && Pow2(1) == 2 && Pow2(2) == 4
  {
    assert Pow2(2) == 2 * Pow2(1) && Pow2(1) == 2 * Pow2(0);
  }

  lemma BaseOf(k: nat)
    ensures SegmentBase(k) == if k == 0 then 0 else Pow2(k)
  {
    SmallPowers();
    if k > 0 { assert Pow2(k) == 2 * Pow2(k - 1); }
  }

  /** Every index lies in exactly one segment, the one that `segment_index_of` names. */
  lemma SegmentsTile(index: nat, k: nat)
    ensures SegmentIndexOf(index) == k <==> SegmentBase(k) <= index < SegmentBase(k) + Buckets(k)
  {
    SmallPowers();
    BaseOf(k);
    var odd := if index % 2 == 0 then index + 1 else index;
    if SegmentIndexOf(index) == k {
      if k > 0 { assert Pow2(k + 1) == 2 * Pow2(k) == 4 * Pow2(k - 1) && Pow2(k) == 2 * Pow2(k - 1); }
    }
    if SegmentBase(k) <= index < SegmentBase(k) + Buckets(k) {
      if k > 0 { assert Pow2(k + 1) == 2 * Pow2(k) == 4 * Pow2(k - 1); }
      Log2IsUnique(odd, k);
    }
  }

  /** A pointer into one of the allocations. */
  datatype Pointer = Pointer(block: nat, offset: int)

  /** The pointer to segment `k`: embedded, in the first block, or an allocation of its own. */
  function SegmentPointer(k: nat): Pointer
  {
    if k == 0 then Pointer(0, 0)
    else if k < FirstBlock then Pointer(1, SegmentBase(k) - SegmentBase(1))
    else Pointer(k - FirstBlock + 2, 0)
  }

  /** The allocations that a table of `2^level` buckets consists of. */
  function BlockSize(block: nat): nat
  {
    if block == 0 then EmbeddedBuckets
    else if block == 1 then SegmentSize(FirstBlock) - EmbeddedBuckets
    else SegmentSize(block - 2 + FirstBlock)
  }

  function BlockCount(level: nat): nat
  {
    if level < FirstBlock then 1 else level - FirstBlock + 2
  }

  /** Where bucket `h` lies. */
  function PlaceOf(h: nat): Pointer
  {
    var s := SegmentIndexOf(h);
    Pointer(SegmentPointer(s).block, SegmentPointer(s).offset + h - SegmentBase(s))
  }

  /** The first number of the buckets in an allocation. */
  function BlockStart(block: nat): nat
  {
    if block == 0 then 0 else if block == 1 then EmbeddedBuckets else Pow2(block - 2 + FirstBlock)
  }

  /** The allocations follow one another: bucket `h` is the one so far behind the start of its allocation. */
  lemma PlaceIsExact(h: nat, level: nat)
    requires (level == 1 || level >= FirstBlock) && h < Pow2(level)
    ensures var p := PlaceOf(h);
      && p.block < BlockCount(level) && 0 <= p.offset < BlockSize(p.block)
      && h == BlockStart(p.block) + p.offset
  {
    var s := SegmentIndexOf(h);
    SmallPowers();
    SegmentsTile(h, s);
    BaseOf(s);
    BaseOf(1);
    if s >= level { Pow2Grows(level, s); }
    if 0 < s < FirstBlock {
      Pow2Grows(s + 1, FirstBlock);
      assert Pow2(s + 1) == 2 * Pow2(s);
      Pow2Grows(1, s);
    }
  }

  /** No two buckets share a place. */
  lemma PlacesDiffer(g: nat, h: nat, level: nat)
    requires (level == 1 || level >= FirstBlock) && g < Pow2(level) && h < Pow2(level) && g != h
    ensures PlaceOf(g) != PlaceOf(h)
  {
    PlaceIsExact(g, level);
    PlaceIsExact(h, level);
  }

  class SegmentTable<B> {
    var table: seq<Option<Pointer>>
    var blocks: seq<seq<B>>
    var mask: nat

    ghost var level: nat

    ghost predicate Valid()
      reads this
    {
      && (level == 1 || level >= FirstBlock)
      && mask + 1 == Pow2(level)
      && level <= |table|
      && (forall k :: 0 <= k < |table| ==> table[k] == if k < level then Some(SegmentPointer(k)) else None)
      && |blocks| == BlockCount(level)
      && (forall b :: 0 <= b < |blocks| ==> |blocks[b]| == BlockSize(b))
    }

    /** The bucket with number `h`. */
    ghost function At(h: nat): B
      reads this
      requires Valid() && h <= mask
    {
      PlaceIsExact(h, level);
      blocks[PlaceOf(h).block][PlaceOf(h).offset]
    }

    /** The buckets, in the order of their numbers. */
    ghost function Contents(): (s: seq<B>)
      reads this
      requires Valid()
    {
      seq(mask + 1, h requires 0 <= h <= mask && Valid() reads this => At(h))
    }

    constructor (pointersPerTable: nat, empty: B)
      requires pointersPerTable >= 1
      ensures Valid() && level == 1 && Contents() == [empty, empty]
    {
      hide Log2, PlaceOf, Pow2;
      SmallPowers();
      BaseOf(0);
      PlaceIsExact(0, 1);
      PlaceIsExact(1, 1);
      table := seq(pointersPerTable, k => if k == 0 then Some(Pointer(0, 0)) else None);
      blocks := [[empty, empty]];
      mask := EmbeddedBuckets - 1;
      level := 1;
      new;
      assert At(0) == empty && At(1) == empty;
    }

    /** `get_bucket`: a masked hash finds its own bucket. */
    method GetBucket(h: nat) returns (p: Pointer)
      requires Valid() && h <= mask
      ensures p == PlaceOf(h) && p.block < |blocks| && 0 <= p.offset < |blocks[p.block]|
      ensures blocks[p.block][p.offset] == Contents()[h]
    {
      PlaceIsExact(h, level);
      var s := SegmentIndexOf(h);
      SegmentsTile(h, s);
      BaseOf(s);
      if s >= level { Pow2Grows(level, s); SmallPowers(); }
      var seg := table[s].value;
      p := Pointer(seg.block, seg.offset + (h - SegmentBase(s)));
    }

    /** Storing into one bucket leaves all the others as they are. */
    method SetBucket(h: nat, b: B)
      requires Valid() && h <= mask
      modifies `blocks
      ensures Valid() && Contents() == old(Contents())[h := b]
    {
      var p := GetBucket(h);
      blocks := blocks[p.block := blocks[p.block][p.offset := b]];
      forall g | 0 <= g <= mask ensures At(g) == if g == h then b else old(At(g)) {
        PlaceIsExact(g, level);
        if g != h { PlacesDiffer(g, h, level); }
      }
    }

    /** `enable_segment`: the new buckets follow the old ones, which stay where they are. */
    method EnableSegment(k: nat, flagged: B)
      requires Valid() && k == level && (if k < FirstBlock then FirstBlock else k + 1) <= |table|
      modifies this
      ensures Valid() && level == (if k < FirstBlock then FirstBlock else k + 1)
      ensures Contents() == old(Contents()) + seq(mask - old(mask), _ => flagged)
    {
      hide Log2, PlaceOf, Pow2, SegmentPointer;
      Doubling(k);
      var sz;
      if k >= FirstBlock {
        sz := SegmentSize(k);
        table := table[k := Some(Pointer(|blocks|, 0))];
        blocks := blocks + [seq(sz, _ => flagged)];
        sz := 2 * sz;
        level := k + 1;
      } else {
        sz := SegmentSize(FirstBlock);
        blocks := blocks + [seq(sz - EmbeddedBuckets, _ => flagged)];
        FillTable(|blocks| - 1);
        level := FirstBlock;
      }
      mask := sz - 1;
      forall g | 0 <= g <= mask ensures At(g) == if g <= old(mask) then old(At(g)) else flagged {
        PlaceIsExact(g, level);
        if g <= old(mask) { PlaceIsExact(g, k); } else { BehindOldBlocks(g, k, level); }
      }
    }

    /** The pointers to the segments of the first block. */
    method FillTable(block: nat)
      requires block == 1 && FirstBlock <= |table|
      requires forall s :: 0 <= s < |table| ==> table[s] == if s == 0 then Some(SegmentPointer(s)) else None
      modifies `table
      ensures |table| == old(|table|)
      ensures forall s :: 0 <= s < |table| ==> table[s] == if s < FirstBlock then Some(SegmentPointer(s)) else None
    {
      var i := 1;
      while i < FirstBlock
        invariant 1 <= i <= FirstBlock && |table| == old(|table|)
        invariant forall s :: 0 <= s < |table| ==> table[s] == if s < i then Some(SegmentPointer(s)) else None
      {
        table := table[i := Some(Pointer(block, SegmentBase(i) - SegmentBase(1)))];
        i := i + 1;
      }
    }
  }

  lemma Doubling(k: nat)
    requires k == 1 || k >= FirstBlock
    ensures SegmentPointer(k) == Pointer(BlockCount(k), 0)
    ensures Pow2(k + 1) == 2 * Pow2(k)
    ensures k < FirstBlock ==> Pow2(k) == EmbeddedBuckets < Pow2(FirstBlock)
  {
    SmallPowers();
    BaseOf(1);
    Pow2Grows(2, FirstBlock);
  }

  /** A bucket beyond a smaller table lies in an allocation beyond that table's. */
  lemma BehindOldBlocks(h: nat, level: nat, level': nat)
    requires (level == 1 || level >= FirstBlock) && level' == (if level < FirstBlock then FirstBlock else level + 1)
    requires Pow2(level) <= h < Pow2(level')
    ensures PlaceOf(h).block == BlockCount(level) == BlockCount(level') - 1
  {
    PlaceIsExact(h, level');
    var b := PlaceOf(h).block;
    if b < BlockCount(level) {
      BlockEnds(b, level);
    }
  }

  /** The allocations of a table hold no more than its buckets. */
  lemma BlockEnds(block: nat, level: nat)
    requires (level == 1 || level >= FirstBlock) && block < BlockCount(level)
    ensures BlockStart(block) + BlockSize(block) <= Pow2(level)
  {
    SmallPowers();
    if block > 0 {
      Pow2Grows(block - 1 + FirstBlock, level);
      Pow2Grows(1, FirstBlock);
      assert block > 1 ==> Pow2(block - 1 + FirstBlock) == 2 * Pow2(block - 2 + FirstBlock);
    }
  }
}
