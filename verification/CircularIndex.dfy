/**
 Unsigned machine words and the unbounded counters they stand for.

 A word of w bits holds `x % 2^w`; `half` is 2^(w-1), so the modulus is `2 * half` for every width.
 Block and index sizes are powers of two, of which only this is used: a mask with `size - 1` is
 a remainder by `size`, and `size` divides the modulus.
 */
module CircularIndex {

  /** The word that stands for the unbounded `x`. */
  function Wrap(x: int, half: int): nat
    requires half > 0
  {
    x % (2 * half)
  }

  /** `circular_less_than` on words. */
  predicate CircularLessThan(a: nat, b: nat, half: int)
    requires half > 0
  {
    Wrap(a - b, half) > half
  }

  /** `size_approx` on the words loaded from `tailIndex` and `headIndex`. */
  function SizeApprox(tail: nat, head: nat, half: int): nat
    requires half > 0
  {
    if CircularLessThan(head, tail, half) then Wrap(tail - head, half) else 0
  }

  /** The signed value of a word. */
  function Signed(word: nat, half: int): int
  {
    if word < half then word else word - 2 * half
  }

  /** Division of signed words truncates toward zero. */
  function TruncatedDivision(a: int, b: int): int
    requires b > 0
  {
    if a >= 0 then a / b else -((-a) / b)
  }

  /** `index & ~(block - 1)`: the base of the block that holds `index`. */
  function BlockBase(index: int, block: int): int
    requires block > 0
  {
    index - index % block
  }

  /** How many blocks an index lies behind a block with the given base, on words. */
  function OffsetOnWords(index: nat, kBase: nat, block: int, half: int): int
    requires half > 0 && block > 0
  {
    TruncatedDivision(Signed(Wrap(BlockBase(index, block) - kBase, half), half), block)
  }

  /** The slot of the circular block index that a consumer computes, on words. */
  function SlotOf(index: nat, front: nat, frontBase: nat, block: nat, size: nat, half: int): nat
    requires half > 0 && block > 0 && size > 0
  {
    Wrap(front + Wrap(OffsetOnWords(index, frontBase, block, half), half), half) % size
  }

  // ----- remainders

  lemma ProductAtLeast(d: int, m: int)
    requires m > 0
    ensures d >= 1 ==> d * m >= m
    ensures d <= -1 ==> d * m <= -m
  {}

  lemma RemainderIsUnique(x: int, q: int, r: int, m: int)
    requires m > 0 && 0 <= r < m && x == q * m + r
    ensures x % m == r && x / m == q
  {
    var d := q - x / m;
    assert x == x / m * m + x % m;
    assert d * m == q * m - x / m * m == x % m - r;
    ProductAtLeast(d, m);
  }

  /** Adding a multiple of the modulus does not change the remainder. */
  lemma RemainderOfShift(x: int, k: int, m: int)
    requires m > 0
    ensures (x + k * m) % m == x % m
  {
    var q, r := x / m, x % m;
    assert x == q * m + r;
    assert x + k * m == (q + k) * m + r;
    RemainderIsUnique(x + k * m, q + k, r, m);
  }

  /** Reducing one operand first does not change the remainder of a sum. */
  lemma RemainderOfSum(a: int, b: int, m: int)
    requires m > 0
    ensures (a % m + b) % m == (a + b) % m
    ensures (b - a % m) % m == (b - a) % m
  {
    var q, r := a / m, a % m;
    assert a == q * m + r;
    assert r + b == (a + b) + (-q) * m;
    RemainderOfShift(a + b, -q, m);
    assert b - r == (b - a) + q * m;
    RemainderOfShift(b - a, q, m);
  }

  /** Wrapping the operands of a difference does not change the wrapped difference. */
  lemma WrapOfDifference(a: int, b: int, half: int)
    requires half > 0
    ensures Wrap(Wrap(a, half) - Wrap(b, half), half) == Wrap(a - b, half)
    ensures Wrap(a - Wrap(b, half), half) == Wrap(a - b, half)
    ensures Wrap(Wrap(a, half) + b, half) == Wrap(a + b, half)
    ensures Wrap(a + Wrap(b, half), half) == Wrap(a + b, half)
  {
    var m := 2 * half;
    RemainderOfSum(a, b, m);
    RemainderOfSum(b, a, m);
    RemainderOfSum(b, Wrap(a, half), m);
    RemainderOfSum(a, -b, m);
  }

  /** A small value is recovered from its word, as unsigned or as signed. */
  lemma WrapOfSmall(x: int, half: int)
    requires half > 0
    ensures 0 <= x < 2 * half ==> Wrap(x, half) == x
    ensures -2 * half <= x < 0 ==> Wrap(x, half) == x + 2 * half
    ensures -half <= x < half ==> Signed(Wrap(x, half), half) == x
  {
    if 0 <= x < 2 * half {
      RemainderIsUnique(x, 0, x, 2 * half);
    } else if -2 * half <= x < 0 {
      RemainderIsUnique(x, -1, x + 2 * half, 2 * half);
    }
  }

  /** A remainder by a divisor of the modulus survives wrapping. */
  lemma RemainderOfWrap(x: int, size: int, half: int, k: int)
    requires half > 0 && size > 0 && 2 * half == k * size
    ensures Wrap(x, half) % size == x % size
  {
    var m := 2 * half;
    assert x == x / m * m + x % m;
    assert x / m * m == x / m * (k * size) == (x / m * k) * size;
    assert x % m == x + (-(x / m * k)) * size;
    RemainderOfShift(x, -(x / m * k), size);
  }

  // ----- the comparison

  /**
   On the words of two unbounded counters at most `half` apart, `circular_less_than` answers `<`
   exactly when the first is not `half` behind: there it answers "not less".
   */
  lemma CircularLessThanIsLess(a: int, b: int, half: int)
    requires half > 0 && -half <= a - b <= half
    ensures (CircularLessThan(Wrap(a, half), Wrap(b, half), half) <==> a < b) <==> a - b != -half
  {
    WrapOfDifference(a, b, half);
    WrapOfSmall(a - b, half);
  }

  /** On words, the check for leeway fails exactly when the new block would end `half` or more ahead of the head. */
  lemma LeewayOnWords(head: int, end: int, half: int)
    requires half > 0 && head < end < head + 2 * half
    ensures !CircularLessThan(Wrap(head, half), Wrap(end, half), half) <==> end - head >= half
  {
    WrapOfDifference(head, end, half);
    RemainderOfShift(head - end, 1, 2 * half);
    RemainderIsUnique(head - end + 1 * (2 * half), 0, head - end + 2 * half, 2 * half);
  }

  /** `size_approx` is exact while fewer than `half` items are queued, and zero for a head read after the tail. */
  lemma SizeApproxIsExact(tail: int, head: int, half: int)
    requires half > 0 && -half <= tail - head < half
    ensures SizeApprox(Wrap(tail, half), Wrap(head, half), half) == if head < tail then tail - head else 0
  {
    CircularLessThanIsLess(head, tail, half);
    WrapOfDifference(tail, head, half);
    WrapOfSmall(tail - head, half);
  }

  /** Truncated division of a multiple is exact, whatever its sign. */
  lemma DivisionOfMultiple(k: int, b: int)
    requires b > 0
    ensures TruncatedDivision(k * b, b) == k
  {
    if k >= 0 {
      assert k * b >= 0;
      RemainderIsUnique(k * b, k, 0, b);
    } else {
      assert k * b < 0 && -(k * b) == (-k) * b;
      RemainderIsUnique((-k) * b, -k, 0, b);
    }
  }

  /** The base of the block of a wrapped index is the wrapped base. */
  lemma BlockBaseOfWrap(index: int, minus: int, block: int, half: int, blocks: int)
    requires half > 0 && block > 0 && 2 * half == blocks * block
    ensures Wrap(BlockBase(Wrap(index, half), block) - minus, half) == Wrap(BlockBase(index, block) - minus, half)
  {
    RemainderOfWrap(index, block, half, blocks);
    var r := index % block;
    assert BlockBase(Wrap(index, half), block) == Wrap(index, half) - r;
    WrapOfDifference(index, -r - minus, half);
  }

  lemma BaseDifference(index: int, k: int, block: int)
    requires block > 0
    ensures BlockBase(index, block) - k * block == (index / block - k) * block
  {
    var q := index / block;
    assert index == q * block + index % block;
    assert (q - k) * block == q * block - k * block;
  }

  /** A word read as signed is right but for whole turns, and right just within half the range. */
  lemma SignedByTurns(d: int, half: int) returns (turns: int)
    requires half > 0
    ensures Signed(Wrap(d, half), half) == d - turns * (2 * half)
    ensures turns == 0 <==> -half <= d < half
  {
    var m := 2 * half;
    var word := Wrap(d, half);
    turns := d / m + if word < half then 0 else 1;
    assert d == d / m * m + word;
    assert (d / m + 1) * m == d / m * m + m;
    ProductAtLeast(turns, m);
  }

  lemma TurnsInBlocks(n: int, turns: int, blocks: int, block: int)
    ensures n * block - turns * (blocks * block) == (n - turns * blocks) * block
  {
    assert turns * (blocks * block) == (turns * blocks) * block;
  }

  /** It is a number of blocks that is right but for whole turns of the index. */
  lemma OffsetByTurns(index: int, k: int, block: int, half: int, blocks: int) returns (turns: int)
    requires half > 0 && block > 0 && 2 * half == blocks * block
    ensures OffsetOnWords(Wrap(index, half), Wrap(k * block, half), block, half) == index / block - k - turns * blocks
    ensures turns == 0 <==> -half <= BlockBase(index, block) - k * block < half
  {
    hide Wrap, BlockBase, Signed, TruncatedDivision;
    var d := BlockBase(index, block) - k * block;
    BlockBaseOfWrap(index, Wrap(k * block, half), block, half, blocks);
    WrapOfDifference(BlockBase(index, block), k * block, half);
    BaseDifference(index, k, block);
    turns := SignedByTurns(d, half);
    TurnsInBlocks(index / block - k, turns, blocks, block);
    DivisionOfMultiple(index / block - k - turns * blocks, block);
  }

  /** The offset in blocks that a consumer computes from words is the true one exactly within half the range. */
  lemma OffsetIsExact(index: int, k: int, block: int, half: int, blocks: int)
    requires half > 0 && block > 0 && 2 * half == blocks * block
    ensures OffsetOnWords(Wrap(index, half), Wrap(k * block, half), block, half) == index / block - k
      <==> -half <= BlockBase(index, block) - k * block < half
  {
    hide OffsetOnWords, BlockBase, Wrap;
    var turns := OffsetByTurns(index, k, block, half, blocks);
    assert blocks != 0;
    assert turns != 0 ==> turns * blocks != 0;
  }

  lemma WholeTurns(x: int, turns: int, slots: int, size: int)
    requires size > 0
    ensures (x - turns * (slots * size)) % size == x % size
  {
    hide Wrap;
    TurnsInBlocks(0, turns, slots, size);
    RemainderOfShift(x, 0 - turns * slots, size);
  }

  /**
   The slot that a consumer computes, from words, lies as many places from `front` as the block of `index`
   lies from the block at `front`, however far apart those are: when the words have wrapped around
   between them, the offset is wrong by whole turns of the index.
   */
  lemma SlotOfIsExact(index: nat, front: nat, k: nat, block: nat, size: nat, half: int, blocks: int, slots: int)
    requires half > 0 && block > 0 && size > 0 && 2 * half == blocks * block && blocks == slots * size
    ensures SlotOf(Wrap(index, half), front, Wrap(k * block, half), block, size, half)
         == (front + (index / block - k)) % size
  {
    hide Wrap, OffsetOnWords;
    var turns := OffsetByTurns(index, k, block, half, blocks);
    var wrong := index / block - k - turns * blocks;
    WrapOfDifference(front, wrong, half);
    assert (slots * size) * block == (slots * block) * size;
    RemainderOfWrap(front + wrong, size, half, slots * block);
    WholeTurns(front + (index / block - k), turns, slots, size);
  }

  /** For bases of blocks this is the slot computed on unbounded indices. */
  lemma SlotOnWords(index: nat, front: nat, base: nat, block: nat, size: nat, half: int, blocks: int, slots: int)
    requires half > 0 && block > 0 && size > 0 && 2 * half == blocks * block && blocks == slots * size
    requires base % block == 0
    ensures SlotOf(Wrap(index, half), front, Wrap(base, half), block, size, half)
         == (front + TruncatedDivision(BlockBase(index, block) - base, block)) % size
  {
    hide SlotOf, Wrap, BlockBase, TruncatedDivision;
    var k: nat := base / block;
    assert base == k * block;
    SlotOfIsExact(index, front, k, block, size, half, blocks, slots);
    BaseDifference(index, k, block);
    DivisionOfMultiple(index / block - k, block);
  }

  /** Two slots less than a full turn apart differ. */
  lemma SlotsDiffer(p: int, q: int, size: nat)
    requires 0 < q - p < size
    ensures p % size != q % size
  {
    if p % size == q % size {
      assert q - p == (q / size - p / size) * size;
      ProductAtLeast(q / size - p / size, size);
    }
  }
}
