/**
 Which bucket of a lazily rehashed table holds a key.  A table of `2^level` buckets has been grown by
 doubling; a new bucket stays flagged "rehash required" until somebody needs it, and until then the
 nodes that belong in it stay in the nearest rehashed bucket above it.
 */
module LazyRehash {
  import opened PowersOfTwo

  /** `h & mask`, for a mask of `k` ones. */
  function Masked(h: nat, k: nat): nat
  {
    h % Pow2(k)
  }

  /** `done` is the set of the rehashed buckets: the first two, and each with its parent. */
  ghost predicate Closed(done: set<nat>)
  {
    0 in done && 1 in done && forall b :: b in done && b > 1 ==> WithoutTop(b) in done
  }

  /** The bucket for hash `h` in a table of `2^k` buckets: the deepest rehashed one on its chain. */
  function Home(done: set<nat>, h: nat, k: nat): nat
  {
    if k <= 1 || Masked(h, k) in done then Masked(h, k) else Home(done, h, k - 1)
  }

  lemma FirstTwo(h: nat)
    ensures Masked(h, 1) == 0 || Masked(h, 1) == 1
  {
    assert Pow2(1) == 2 * Pow2(0);
  }

  /** All the buckets above a rehashed bucket of the chain are rehashed. */
  lemma {:induction false} RehashedAbove(done: set<nat>, h: nat, j: nat, k: nat)
    requires Closed(done) && 1 <= j <= k && Masked(h, k) in done
    ensures Masked(h, j) in done
    decreases k
  {
    if j < k {
      OneMoreBit(h, k - 1);
      if Masked(h, k) != Masked(h, k - 1) {
        TopBit(h, k - 1);
        Pow2Grows(1, k - 1);
        assert Pow2(1) == 2 * Pow2(0);
      }
      RehashedAbove(done, h, j, k - 1);
    }
  }

  /** A home is rehashed, and on the chain of its hash. */
  lemma {:induction false} HomeOnChain(done: set<nat>, h: nat, k: nat) returns (j: nat)
    requires Closed(done) && k >= 1
    ensures 1 <= j <= k && Home(done, h, k) == Masked(h, j) && Masked(h, j) in done
    ensures Home(done, h, k) < Pow2(k)
  {
    FirstTwo(h);
    if k <= 1 || Masked(h, k) in done {
      j := k;
    } else {
      j := HomeOnChain(done, h, k - 1);
      Pow2Grows(k - 1, k);
    }
  }

  /** Growing the table moves nothing: its new buckets are not rehashed. */
  lemma {:induction false} HomeInLargerTable(done: set<nat>, h: nat, j: nat, k: nat)
    requires Closed(done) && 1 <= j <= k && forall b :: b in done ==> b < Pow2(j)
    ensures Home(done, h, k) == Home(done, h, j)
    decreases k
  {
    if j < k {
      HomeInLargerTable(done, h, j, k - 1);
      OneMoreBit(h, k - 1);
      Pow2Grows(j, k - 1);
    }
  }

  /** Bucket `b` is next to be rehashed: it is not, its parent is, and so no bucket below it is. */
  ghost predicate Next(done: set<nat>, b: nat)
  {
    Closed(done) && b > 1 && b !in done && WithoutTop(b) in done
  }

  /** The hash lets `b` through under b's own mask: then b is on its chain. */
  predicate BelongsIn(h: nat, b: nat)
    requires b > 0
  {
    Masked(h, Log2(b) + 1) == b
  }

  /**
   Rehashing `b` moves just the hashes that belong in it from its parent, and leaves all others where
   they are.
   */
  lemma {:induction false} HomeAfterRehash(done: set<nat>, b: nat, h: nat, k: nat)
    requires Next(done, b) && k >= 1
    ensures if BelongsIn(h, b) && Log2(b) < k
      then Home(done, h, k) == WithoutTop(b) && Home(done + {b}, h, k) == b
      else Home(done + {b}, h, k) == Home(done, h, k)
    decreases k
  {
    var d, c := Log2(b), Masked(h, k);
    ParentByMask(b);
    if BelongsIn(h, b) && d < k {
      MaskTwice(h, d + 1, k);
      MaskTwice(h, d, d + 1);
      if c in done { RehashedAbove(done, h, d + 1, k); }
      if d + 1 < k {
        HomeAfterRehash(done, b, h, k - 1);
      } else {
        AtParent(done, b, h, d);
      }
    } else if k > 1 && c !in done {
      if c == b { NotBelow(h, b, k); }
      HomeAfterRehash(done, b, h, k - 1);
    } else {
      FirstTwo(h);
    }
  }

  lemma AtParent(done: set<nat>, b: nat, h: nat, d: nat)
    requires Next(done, b) && d == Log2(b) && Masked(h, d) == WithoutTop(b)
    ensures d >= 1 && Home(done, h, d) == WithoutTop(b)
  {
    assert Pow2(1) == 2 * Pow2(0);
  }

  /** A masked hash that equals `b` has `b` on its chain. */
  lemma NotBelow(h: nat, b: nat, k: nat)
    requires b > 0 && Masked(h, k) == b
    ensures BelongsIn(h, b) && Log2(b) < k
  {
    var d := Log2(b);
    if k <= d { Pow2Grows(k, d); }
    MaskTwice(h, d + 1, k);
    ParentByMask(b);
  }

  // ----- searches under a mask that has become stale

  /** The first level above `j` at which the mask lets another bit of `h` through. */
  function NextChange(h: nat, j: nat, k: nat): (i: nat)
    requires j <= k && Masked(h, j) != Masked(h, k)
    ensures j < i <= k && Masked(h, i) != Masked(h, j) && Masked(h, i - 1) == Masked(h, j)
    decreases k - j
  {
    if Masked(h, j + 1) != Masked(h, j) then j + 1 else NextChange(h, j + 1, k)
  }

  lemma {:induction false} MaskedGrows(h: nat, j: nat, k: nat)
    requires j <= k
    ensures Masked(h, j) <= Masked(h, k)
  {
    if j < k {
      MaskedGrows(h, j, k - 1);
      OneMoreBit(h, k - 1);
    }
  }

  /** As long as the next bucket on the chain is not rehashed, nothing has left the one before it. */
  lemma {:induction false} StaysHome(done: set<nat>, h: nat, j: nat, k: nat)
    requires Closed(done) && 1 <= j <= k && Masked(h, j) in done
    requires Masked(h, j) != Masked(h, k) ==> Masked(h, NextChange(h, j, k)) !in done
    ensures Home(done, h, k) == Masked(h, j)
    decreases k
  {
    if Masked(h, j) != Masked(h, k) {
      var i := NextChange(h, j, k);
      if Masked(h, k) in done { RehashedAbove(done, h, i, k); }
      if i < k {
        MaskedGrows(h, j, i);
        MaskedGrows(h, i, k - 1);
        SameChange(h, j, k);
        StaysHome(done, h, j, k - 1);
      }
    }
  }

  lemma {:induction false} SameChange(h: nat, j: nat, k: nat)
    requires j < k && Masked(h, j) != Masked(h, k) && Masked(h, j) != Masked(h, k - 1)
    ensures NextChange(h, j, k) == NextChange(h, j, k - 1)
    decreases k - j
  {
    if Masked(h, j + 1) == Masked(h, j) {
      SameChange(h, j + 1, k);
    }
  }

  /**
   For a searched bucket `h & mask` of an older mask: the check for a collision tells exactly whether
   what belongs to `h` has meanwhile moved to a deeper bucket.
   */
  lemma StaleMask(done: set<nat>, h: nat, j: nat, k: nat)
    requires Closed(done) && 1 <= j <= k && Masked(h, j) in done
    ensures Home(done, h, k) != Masked(h, j) <==>
      Masked(h, j) != Masked(h, k) && Masked(h, NextChange(h, j, k)) in done
  {
    if Masked(h, j) != Masked(h, k) && Masked(h, NextChange(h, j, k)) in done {
      var i := NextChange(h, j, k);
      MaskedGrows(h, j, i);
      HomeBelow(done, h, i, k);
    } else {
      StaysHome(done, h, j, k);
    }
  }

  /** Of the buckets under the one that an older mask yields, at most one is on the chain: the one at its next change. */
  lemma ChildOnChain(h: nat, w: nat, j: nat, k: nat)
    requires 0 < w < Pow2(k) && BelongsIn(h, w) && WithoutTop(w) == Masked(h, j) && j <= k
    ensures Masked(h, j) != Masked(h, k) && Masked(h, NextChange(h, j, k)) == w
  {
    var d := Log2(w);
    ParentByMask(w);
    MaskTwice(h, d, d + 1);
    if k <= d { Pow2Grows(k, d); }
    if d < j { MaskedGrows(h, d + 1, j); }
    MaskedGrows(h, d + 1, k);
    var i := NextChange(h, j, k);
    if i <= d {
      MaskedGrows(h, j, i);
      MaskedGrows(h, i, d);
    } else if i > d + 1 {
      MaskedGrows(h, d + 1, i - 1);
    }
  }

  lemma {:induction false} HomeBelow(done: set<nat>, h: nat, i: nat, k: nat)
    requires Closed(done) && 1 <= i <= k && Masked(h, i) in done
    ensures Home(done, h, k) >= Masked(h, i)
    decreases k
  {
    MaskedGrows(h, i, k);
    if i < k && Masked(h, k) !in done {
      HomeBelow(done, h, i, k - 1);
    }
  }
}
