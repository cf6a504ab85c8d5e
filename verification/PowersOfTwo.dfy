/**
 Powers of two, the topmost bit of a number, and masks: for a mask with `k` bits set, `h & mask` is
 the remainder of `h` by the `k`-th power.
 */
module PowersOfTwo {
  import opened CircularIndex

  function Pow2(k: nat): (p: nat)
    ensures p > 0
  {
    if k == 0 then 1 else 2 * Pow2(k - 1)
  }

  /** The position of the topmost bit. */
  function Log2(n: nat): (k: nat)
    requires n > 0
    ensures Pow2(k) <= n < Pow2(k + 1)
  {
    if n == 1 then 0 else
      var k := Log2(n / 2) + 1;
      assert Pow2(k) == 2 * Pow2(k - 1) && Pow2(k + 1) == 2 * Pow2(k);
      k
  }

  lemma {:induction false} Pow2Grows(j: nat, k: nat)
    requires j <= k
    ensures Pow2(j) <= Pow2(k)
    ensures j < k ==> 2 * Pow2(j) <= Pow2(k)
  {
    if j < k {
      Pow2Grows(j, k - 1);
    }
  }

  /** There is only one position for the topmost bit. */
  lemma Log2IsUnique(n: nat, k: nat)
    requires Pow2(k) <= n < Pow2(k + 1)
    ensures n > 0 && Log2(n) == k
  {
    if Log2(n) < k { Pow2Grows(Log2(n) + 1, k); }
    if Log2(n) > k { Pow2Grows(k + 1, Log2(n)); }
  }

  /** One more bit of mask lets one more bit through. */
  lemma OneMoreBit(h: nat, k: nat)
    ensures h % Pow2(k + 1) == h % Pow2(k) || h % Pow2(k + 1) == h % Pow2(k) + Pow2(k)
    ensures h % Pow2(k + 1) == h % Pow2(k) + (h / Pow2(k)) % 2 * Pow2(k)
  {
    var p := Pow2(k);
    var q, r := h / p, h % p;
    assert h == q * p + r;
    var q2, bit := q / 2, q % 2;
    assert q * p == (2 * q2 + bit) * p == q2 * (2 * p) + bit * p;
    assert bit * p + r < 2 * p;
    RemainderIsUnique(h, q2, bit * p + r, 2 * p);
  }

  /** A shorter mask only sees what a longer one lets through. */
  lemma {:induction false} MaskTwice(h: nat, j: nat, k: nat)
    requires j <= k
    ensures (h % Pow2(k)) % Pow2(j) == h % Pow2(j)
  {
    if j < k {
      MaskTwice(h, j, k - 1);
      OneMoreBit(h, k - 1);
      if h % Pow2(k) != h % Pow2(k - 1) {
        HigherBit(h % Pow2(k - 1), j, k - 1);
      }
    } else {
      RemainderIsUnique(h % Pow2(k), 0, h % Pow2(k), Pow2(k));
    }
  }

  lemma {:induction false} HigherBit(r: nat, j: nat, k: nat)
    requires j <= k
    ensures (r + Pow2(k)) % Pow2(j) == r % Pow2(j)
    decreases k
  {
    hide Pow2;
    if j < k {
      HigherBit(r, j, k - 1);
      HigherBit(r + Pow2(k - 1), j, k - 1);
      HalfTwice(r, k);
    } else {
      RemainderOfShift(r, 1, Pow2(k));
    }
  }

  lemma HalfTwice(r: nat, k: nat)
    requires k > 0
    ensures r + Pow2(k) == r + Pow2(k - 1) + Pow2(k - 1)
  {}

  /** The number without its topmost bit. */
  function WithoutTop(n: nat): nat
    requires n > 0
  {
    n - Pow2(Log2(n))
  }

  /** A masked value with its top bit set loses just that under the next shorter mask. */
  lemma TopBit(h: nat, k: nat)
    requires h % Pow2(k + 1) >= Pow2(k)
    ensures var c := h % Pow2(k + 1); c > 0 && Log2(c) == k && WithoutTop(c) == h % Pow2(k)
  {
    OneMoreBit(h, k);
    Log2IsUnique(h % Pow2(k + 1), k);
  }

  /** The parent of a bucket number is its value under the mask below its topmost bit. */
  lemma ParentByMask(n: nat)
    requires n > 0
    ensures WithoutTop(n) == n % Pow2(Log2(n))
    ensures n % Pow2(Log2(n) + 1) == n
  {
    RemainderIsUnique(n, 0, n, Pow2(Log2(n) + 1));
    TopBit(n, Log2(n));
  }
}
