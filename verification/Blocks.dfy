/** Dividing a range of indices into blocks of almost equal size, and a parallel loop over it. */
module Blocks {
  import opened CircularIndex

  datatype Blocks = Blocks(first: int, afterLast: int, count: nat, size: nat, remainder: nat)
  {
    function Start(block: nat): int
    {
      first + block * size + if block < remainder then block else remainder
    }

    function End(block: nat): int
    {
      if block == count - 1 then afterLast else Start(block + 1)
    }
  }

  /** The constructor; a count of blocks is asked for, and at least one. */
  function Divide(first: int, afterLast: int, count: nat): Blocks
    requires afterLast > first ==> count > 0
  {
    if afterLast > first then
      var total := afterLast - first;
      var n := if count < total then count else total;
      if total / n == 0 then Blocks(first, afterLast, if total > 1 then total else 1, 1, total % n)
      else Blocks(first, afterLast, n, total / n, total % n)
    else Blocks(first, afterLast, 0, 0, 0)
  }

  /** The blocks have at least one index each, and the remainder is shared out. */
  lemma DivideIsExact(first: int, afterLast: int, count: nat)
    requires afterLast > first && count > 0
    ensures var b := Divide(first, afterLast, count);
      && b.first == first && b.afterLast == afterLast
      && b.count == (if count < afterLast - first then count else afterLast - first) > 0
      && b.size >= 1 && b.remainder < b.count
      && afterLast - first == b.count * b.size + b.remainder
  {
    var total := afterLast - first;
    var n := if count < total then count else total;
    assert total == total / n * n + total % n;
    ProductAtLeast(total / n, n);
    assert n * (total / n) == total / n * n;
  }

  lemma BlockEnds(b: Blocks, block: nat)
    requires block < b.count && b.remainder < b.count && b.afterLast - b.first == b.count * b.size + b.remainder
    ensures b.End(block) - b.Start(block) == b.size + (if block < b.remainder then 1 else 0)
    ensures b.Start(block) >= b.first
  {
    var next := block + 1;
    assert next * b.size == block * b.size + b.size;
    assert block * b.size >= 0;
    if next == b.count { assert b.count * b.size == next * b.size; }
  }

  /**
   There are as many blocks as asked for, or as there are indices.  Every block is not empty, each starts
   where the one before it ends, the first and the last are where the range is, and no two differ by more
   than one in size: the larger ones come first.
   */
  lemma BlocksPartition(first: int, afterLast: int, count: nat, block: nat)
    requires afterLast > first && count > 0
    requires block < Divide(first, afterLast, count).count
    ensures var b := Divide(first, afterLast, count);
      && b.count == (if count < afterLast - first then count else afterLast - first) > 0
      && b.Start(0) == first && b.End(b.count - 1) == afterLast
      && (block + 1 < b.count ==> b.End(block) == b.Start(block + 1))
      && b.End(block) - b.Start(block) == b.size + (if block < b.remainder then 1 else 0)
      && b.size >= 1 && b.Start(block) >= first
  {
    DivideIsExact(first, afterLast, count);
    hide Divide;
    BlockEnds(Divide(first, afterLast, count), block);
  }

  /** Blocks do not overlap: a later one starts no earlier than an earlier one ends. */
  lemma {:induction false} BlocksAreDisjoint(first: int, afterLast: int, count: nat, a: nat, b: nat)
    requires afterLast > first && count > 0 && a < b < Divide(first, afterLast, count).count
    ensures var d := Divide(first, afterLast, count); d.End(a) <= d.Start(b)
  {
    hide Divide;
    BlocksPartition(first, afterLast, count, b - 1);
    if a < b - 1 {
      BlocksAreDisjoint(first, afterLast, count, a, b - 1);
    }
  }

  /** The indices from `from` up to `to`, in order. */
  function Interval(from: int, to: int): (s: seq<int>)
    ensures |s| == if from < to then to - from else 0
  {
    if from < to then seq(to - from, k => from + k) else []
  }

  lemma IntervalsJoin(a: int, b: int, c: int)
    requires a <= b <= c
    ensures Interval(a, b) + Interval(b, c) == Interval(a, c)
  {}

  lemma NothingToVisit(a: int, b: int)
    requires b <= a
    ensures Interval(a, b) == []
  {}

  lemma IntervalIsEmpty(a: int)
    ensures Interval(a, a) == []
  {}

  function Concat(parts: seq<seq<int>>): seq<int>
  {
    if parts == [] then [] else Concat(parts[..|parts| - 1]) + parts[|parts| - 1]
  }

  /** One task of the loop: the indices it calls the function with. */
  method RunTask(start: int, end: int) returns (visited: seq<int>)
    ensures visited == Interval(start, end)
  {
    visited := [];
    var i := start;
    while i < end
      invariant i <= end || i == start
      invariant visited == Interval(start, i)
    {
      visited := visited + [i];
      i := i + 1;
    }
  }

  /**
   `detach_loop`: its tasks, run in whatever order, call the function once for each index of the range;
   together they visit what the sequential loop visits.
   */
  method DetachLoop(first: int, afterLast: int, numBlocks: nat, threadCount: nat)
    returns (tasks: seq<(int, int)>, ghost visited: seq<seq<int>>)
    requires threadCount > 0
    ensures forall k :: 0 <= k < |tasks| ==> tasks[k].0 < tasks[k].1
    ensures |visited| == |tasks| && forall k :: 0 <= k < |tasks| ==> visited[k] == Interval(tasks[k].0, tasks[k].1)
    ensures Concat(visited) == Interval(first, afterLast)
    ensures var n := if numBlocks > 0 then numBlocks else threadCount;
      |tasks| == if afterLast <= first then 0 else if n < afterLast - first then n else afterLast - first
    ensures forall j, k :: 0 <= j < k < |tasks| ==> 0 <= (tasks[j].1 - tasks[j].0) - (tasks[k].1 - tasks[k].0) <= 1
  {
    hide Divide, Interval;
    tasks, visited := [], [];
    if afterLast <= first {
      NothingToVisit(first, afterLast);
    } else {
      var n := if numBlocks > 0 then numBlocks else threadCount;
      IntervalIsEmpty(first);
      var blks := Divide(first, afterLast, n);
      DivideIsExact(first, afterLast, n);
      BlocksPartition(first, afterLast, n, 0);
      var blk := 0;
      while blk < blks.count
        invariant blk <= blks.count && |tasks| == |visited| == blk
        invariant forall k :: 0 <= k < blk ==>
          0 < tasks[k].1 - tasks[k].0 == blks.size + if k < blks.remainder then 1 else 0
        invariant forall k :: 0 <= k < blk ==> visited[k] == Interval(tasks[k].0, tasks[k].1)
        invariant blk < blks.count ==> first <= blks.Start(blk)
        invariant Concat(visited) == Interval(first, if blk < blks.count then blks.Start(blk) else afterLast)
      {
        BlocksPartition(first, afterLast, n, blk);
        var start, end := blks.Start(blk), blks.End(blk);
        IntervalsJoin(first, start, end);
        tasks := tasks + [(start, end)];
        ghost var before := visited;
        visited := visited + [Interval(start, end)];
        assert visited[..|visited| - 1] == before;
        blk := blk + 1;
      }
    }
  }
}
