/**
 The hash map as several threads use it: any number of them fill buckets, one node at a time, while
 others grow the table, and insert and erase under masks that may be stale.

 Each step is what a thread does under the locks of the buckets concerned, or one node relinked.  A
 bucket that is being filled is locked, and looked into by nobody else.
 */
module SharedHashMap {
  import opened PowersOfTwo
  import opened LazyRehash
  import opened HashMap

  // ----- buckets that are being filled

  /** The key's node has moved from its home to a bucket that is being filled. */
  ghost predicate Moving<K, V>(v: View<K, V>, buckets: seq<Bucket<K, V>>, work: set<nat>, key: K, w: nat)
  {
    && w in work && 1 < w < |buckets| && buckets[w].Rehashed? && HasKey(buckets[w].nodes, key)
    && BelongsIn(v.hash(key), w) && WithoutTop(w) == HomeOf(v, key)
  }

  /** The node holds what the map contains, and lies at home, or in the bucket under it that is being filled. */
  ghost predicate NodeMidway<K, V>(v: View<K, V>, work: set<nat>, b: nat, n: Node<K, V>)
  {
    && n.key in v.contents && v.contents[n.key] == n.value
    && if b in work then b > 1 && BelongsIn(v.hash(n.key), b) && HomeOf(v, n.key) == WithoutTop(b)
       else HomeOf(v, n.key) == b
  }

  ghost predicate NodesMidway<K, V>(v: View<K, V>, work: set<nat>, b: nat, nodes: seq<Node<K, V>>)
  {
    forall n :: n in nodes ==> NodeMidway(v, work, b, n)
  }

  /** The table while any number of buckets are being filled, one node at a time: `work` are those buckets. */
  ghost predicate Midway<K, V>(v: View<K, V>, buckets: seq<Bucket<K, V>>, work: set<nat>)
  {
    && v.level >= 1 && |buckets| == Pow2(v.level)
    && v.done == Done(buckets, work) && Closed(v.done)
    && (forall w :: w in work ==> 1 < w < |buckets| && buckets[w].Rehashed?)
    && (forall b :: 0 <= b < |buckets| && buckets[b].Rehashed? ==> NodesMidway(v, work, b, buckets[b].nodes))
    && (forall key :: key in v.contents ==>
          Present(v, buckets, key) || exists w :: Moving(v, buckets, work, key, w))
  }

  /** The table of a single thread, which may be about to fill some buckets, is such a table. */
  lemma TableIsMidway<K, V>(v: View<K, V>, buckets: seq<Bucket<K, V>>, work: set<nat>)
    requires TableOk(v, buckets, work)
    ensures Midway(v, buckets, work)
  {
    forall w | w in work ensures w > 1 { assert w !in v.done; }
    forall b | 0 <= b < |buckets| && buckets[b].Rehashed? ensures NodesMidway(v, work, b, buckets[b].nodes) {
      assert NodesOk(v, b, buckets[b].nodes);
    }
  }

  /** A thread lowers the flag of a bucket, to fill it. */
  lemma MarkKeepsMidway<K, V>(v: View<K, V>, buckets: seq<Bucket<K, V>>, work: set<nat>, b: nat)
    requires Midway(v, buckets, work) && b < |buckets| && buckets[b].RehashRequired?
    ensures Midway(v, buckets[b := Rehashed([])], work + {b})
  {
    var buckets' := buckets[b := Rehashed([])];
    assert v.done == Done(buckets', work + {b});
    assert b !in v.done;
    forall c | 0 <= c < |buckets'| && buckets'[c].Rehashed?
      ensures NodesMidway(v, work + {b}, c, buckets'[c].nodes)
    {
      if c != b { assert NodesMidway(v, work, c, buckets[c].nodes); }
    }
    forall key | key in v.contents
      ensures Present(v, buckets', key) || exists w :: Moving(v, buckets', work + {b}, key, w)
    {
      if !Present(v, buckets, key) {
        var w :| Moving(v, buckets, work, key, w);
        assert Moving(v, buckets', work + {b}, key, w);
      }
    }
  }

  /** Taking one node out loses no other key. */
  lemma OthersRemain<K, V>(nodes: seq<Node<K, V>>, i: nat, key: K)
    requires i < |nodes| && HasKey(nodes, key) && nodes[i].key != key
    ensures HasKey(nodes[..i] + nodes[i + 1..], key)
  {
    var k :| 0 <= k < |nodes| && nodes[k].key == key;
    assert (nodes[..i] + nodes[i + 1..])[if k < i then k else k - 1] == nodes[k];
  }

  /** A node comes first in a chain that keeps the others. */
  lemma HasAlso<K, V>(nodes: seq<Node<K, V>>, n: Node<K, V>, key: K)
    ensures HasKey([n] + nodes, key) <==> n.key == key || HasKey(nodes, key)
  {
    if k :| 0 <= k < |nodes| && nodes[k].key == key { assert ([n] + nodes)[k + 1] == nodes[k]; }
    assert ([n] + nodes)[0] == n;
    if k :| 0 <= k < |[n] + nodes| && ([n] + nodes)[k].key == key { assert k > 0 ==> nodes[k - 1].key == key; }
  }

  /** The buckets after the `i`-th node of `p` has been relinked into `b`. */
  function Relink<K, V>(buckets: seq<Bucket<K, V>>, p: nat, b: nat, i: nat): seq<Bucket<K, V>>
    requires p < |buckets| && b < |buckets| && p != b && buckets[p].Rehashed? && buckets[b].Rehashed?
    requires i < |buckets[p].nodes|
  {
    var nodes := buckets[p].nodes;
    buckets[p := Rehashed(nodes[..i] + nodes[i + 1..])][b := Rehashed([nodes[i]] + buckets[b].nodes)]
  }

  /** A thread moves one node from the parent to the bucket that it fills. */
  lemma MoveKeepsMidway<K, V>(v: View<K, V>, buckets: seq<Bucket<K, V>>, work: set<nat>, b: nat, i: nat)
    requires Midway(v, buckets, work) && b in work && WithoutTop(b) in v.done && i < |buckets[WithoutTop(b)].nodes|
    requires BelongsIn(v.hash(buckets[WithoutTop(b)].nodes[i].key), b)
    ensures Midway(v, Relink(buckets, WithoutTop(b), b, i), work)
  {
    hide BelongsIn, Home, Closed, HasKey, WithoutTop;
    var p := WithoutTop(b);
    var buckets', n := Relink(buckets, p, b, i), buckets[p].nodes[i];
    assert v.done == Done(buckets', work);
    HasAlso(buckets[b].nodes, n, n.key);
    assert NodesMidway(v, work, p, buckets[p].nodes) && n in buckets[p].nodes;
    assert NodeMidway(v, work, p, n);
    forall c | 0 <= c < |buckets'| && buckets'[c].Rehashed? ensures NodesMidway(v, work, c, buckets'[c].nodes) {
      assert NodesMidway(v, work, c, buckets[c].nodes);
      forall m | m in buckets'[c].nodes ensures NodeMidway(v, work, c, m) {
        assert m in buckets[c].nodes || (c == b && m == n);
      }
    }
    forall key | key in v.contents
      ensures Present(v, buckets', key) || exists w :: Moving(v, buckets', work, key, w)
    {
      if key == n.key {
        assert Moving(v, buckets', work, key, b);
      } else if Present(v, buckets, key) {
        HomeIsDone(v, buckets, work, key);
        if HomeOf(v, key) == p { OthersRemain(buckets[p].nodes, i, key); }
        assert Present(v, buckets', key);
      } else {
        var w :| Moving(v, buckets, work, key, w);
        HasAlso(buckets[b].nodes, n, key);
        assert Moving(v, buckets', work, key, w);
      }
    }
  }

  lemma HomeIsDone<K, V>(v: View<K, V>, buckets: seq<Bucket<K, V>>, work: set<nat>, key: K)
    requires Midway(v, buckets, work)
    ensures HomeOf(v, key) in v.done
  {
    var _ := HomeOnChain(v.done, v.hash(key), v.level);
  }

  /** A thread has moved all the nodes that belong in its bucket, and is done. */
  lemma FillKeepsMidway<K, V>(v: View<K, V>, buckets: seq<Bucket<K, V>>, work: set<nat>, b: nat)
    requires Midway(v, buckets, work) && b in work && WithoutTop(b) in v.done
    requires forall n :: n in buckets[WithoutTop(b)].nodes ==> !BelongsIn(v.hash(n.key), b)
    ensures Midway(v.(done := v.done + {b}), buckets, work - {b})
  {
    hide BelongsIn, WithoutTop, Home;
    var v' := v.(done := v.done + {b});
    assert v'.done == Done(buckets, work - {b});
    LowEnough(b, v.level);
    forall c | 0 <= c < |buckets| && buckets[c].Rehashed? ensures NodesMidway(v', work - {b}, c, buckets[c].nodes) {
      FilledNodes(v, buckets, work, b, c);
    }
    forall key | key in v'.contents
      ensures Present(v', buckets, key) || exists w :: Moving(v', buckets, work - {b}, key, w)
    {
      NewHome(v, b, key);
      if Present(v, buckets, key) {
        if BelongsIn(v.hash(key), b) { var n := KeyIsThere(buckets[WithoutTop(b)].nodes, key); }
      } else {
        var w :| Moving(v, buckets, work, key, w);
        if BelongsIn(v.hash(key), b) {
          OneChild(v, buckets, work, key, b, w);
        } else {
          assert Moving(v', buckets, work - {b}, key, w);
        }
      }
    }
  }

  lemma FilledNodes<K, V>(v: View<K, V>, buckets: seq<Bucket<K, V>>, work: set<nat>, b: nat, c: nat)
    requires Midway(v, buckets, work) && b in work && WithoutTop(b) in v.done
    requires forall n :: n in buckets[WithoutTop(b)].nodes ==> !BelongsIn(v.hash(n.key), b)
    requires c < |buckets| && buckets[c].Rehashed?
    ensures NodesMidway(v.(done := v.done + {b}), work - {b}, c, buckets[c].nodes)
  {
    hide BelongsIn, WithoutTop, Home;
    var v' := v.(done := v.done + {b});
    LowEnough(b, v.level);
    assert NodesMidway(v, work, c, buckets[c].nodes);
    forall n | n in buckets[c].nodes ensures NodeMidway(v', work - {b}, c, n) {
      assert NodeMidway(v, work, c, n);
      NewHome(v, b, n.key);
      if c in work && BelongsIn(v.hash(n.key), b) { OneChild(v, buckets, work, n.key, b, c); }
    }
  }

  lemma OneChild<K, V>(v: View<K, V>, buckets: seq<Bucket<K, V>>, work: set<nat>, key: K, b: nat, w: nat)
    requires Midway(v, buckets, work) && 0 < b < |buckets| && 0 < w < |buckets|
    requires BelongsIn(v.hash(key), b) && WithoutTop(b) == HomeOf(v, key)
    requires BelongsIn(v.hash(key), w) && WithoutTop(w) == HomeOf(v, key)
    ensures b == w
  {
    hide BelongsIn, WithoutTop;
    var j := HomeOnChain(v.done, v.hash(key), v.level);
    ChildOnChain(v.hash(key), b, j, v.level);
    ChildOnChain(v.hash(key), w, j, v.level);
  }

  /** New buckets, all flagged, change nothing. */
  lemma GrowKeepsMidway<K, V>(v: View<K, V>, buckets: seq<Bucket<K, V>>, work: set<nat>, level: nat)
    requires Midway(v, buckets, work) && v.level <= level
    ensures Pow2(level) >= |buckets|
    ensures Midway(v.(level := level), buckets + Flagged(Pow2(level) - |buckets|), work)
  {
    hide BelongsIn, WithoutTop;
    Pow2Grows(v.level, level);
    var buckets', v' := buckets + Flagged(Pow2(level) - |buckets|), v.(level := level);
    assert v'.done == Done(buckets', work);
    forall c | 0 <= c < |buckets'| && buckets'[c].Rehashed? ensures NodesMidway(v', work, c, buckets'[c].nodes) {
      assert NodesMidway(v, work, c, buckets[c].nodes);
      forall n | n in buckets[c].nodes ensures NodeMidway(v', work, c, n) {
        assert NodeMidway(v, work, c, n);
        HomeInLargerTable(v.done, v.hash(n.key), v.level, level);
      }
    }
    forall key | key in v'.contents
      ensures Present(v', buckets', key) || exists w :: Moving(v', buckets', work, key, w)
    {
      HomeInLargerTable(v.done, v.hash(key), v.level, level);
      if !Present(v, buckets, key) {
        var w :| Moving(v, buckets, work, key, w);
        assert Moving(v', buckets', work, key, w);
      }
    }
  }

  /** What a search under the mask of level `j` relies on: it missed, and saw no collision with rehashing. */
  ghost predicate MissedUnder<K, V>(v: View<K, V>, buckets: seq<Bucket<K, V>>, key: K, j: nat)
    requires 1 <= j <= v.level
  {
    var h := v.hash(key);
    && Masked(h, j) < |buckets| && buckets[Masked(h, j)].Rehashed? && !HasKey(buckets[Masked(h, j)].nodes, key)
    && (Masked(h, j) != Masked(h, v.level) ==>
          var c := Masked(h, NextChange(h, j, v.level)); c < |buckets| && buckets[c].RehashRequired?)
  }

  /**
   A search that missed in the bucket of an older mask, and then finds no collision with rehashing,
   proves that the key is absent, and that this bucket is its home: however often the table has grown,
   and whatever other buckets are being filled, each with some of its nodes moved.
   */
  lemma StaleSearchIsSound<K, V>(v: View<K, V>, buckets: seq<Bucket<K, V>>, work: set<nat>, key: K, j: nat)
    requires Midway(v, buckets, work) && 1 <= j <= v.level
    requires MissedUnder(v, buckets, key, j) && Masked(v.hash(key), j) !in work
    ensures key !in v.contents && HomeOf(v, key) == Masked(v.hash(key), j)
  {
    hide BelongsIn, WithoutTop;
    var h := v.hash(key);
    StaleMask(v.done, h, j, v.level);
    if w :| Moving(v, buckets, work, key, w) { ChildOnChain(h, w, j, v.level); }
  }

  /** So an insertion under an older mask, after such a search, puts the key where it belongs. */
  lemma StaleInsertKeepsMidway<K, V>(v: View<K, V>, buckets: seq<Bucket<K, V>>, work: set<nat>, key: K, value: V, j: nat)
    requires Midway(v, buckets, work) && 1 <= j <= v.level
    requires MissedUnder(v, buckets, key, j) && Masked(v.hash(key), j) !in work
    ensures var b := Masked(v.hash(key), j);
      Midway(v.(contents := v.contents[key := value]),
             buckets[b := Rehashed([Node(key, value)] + buckets[b].nodes)], work)
  {
    hide BelongsIn, Home, Closed, HasKey, WithoutTop, Masked, NextChange;
    StaleSearchIsSound(v, buckets, work, key, j);
    var b := Masked(v.hash(key), j);
    var nodes := [Node(key, value)] + buckets[b].nodes;
    var buckets', v' := buckets[b := Rehashed(nodes)], v.(contents := v.contents[key := value]);
    assert v'.done == Done(buckets', work);
    forall c | 0 <= c < |buckets'| && buckets'[c].Rehashed? ensures NodesMidway(v', work, c, buckets'[c].nodes) {
      assert NodesMidway(v, work, c, buckets[c].nodes);
      forall n | n in buckets'[c].nodes ensures NodeMidway(v', work, c, n) {
        assert n in buckets[c].nodes || (c == b && n == Node(key, value));
        assert HomeOf(v', n.key) == HomeOf(v, n.key);
        assert n in buckets[c].nodes ==> NodeMidway(v, work, c, n);
      }
    }
    forall k | k in v'.contents
      ensures Present(v', buckets', k) || exists w :: Moving(v', buckets', work, k, w)
    {
      HasAlso(buckets[b].nodes, Node(key, value), k);
      assert HomeOf(v', k) == HomeOf(v, k);
      if k != key && !Present(v, buckets, k) {
        var w :| Moving(v, buckets, work, k, w);
        assert Moving(v', buckets', work, k, w);
      }
    }
  }

  // ----- erasing, and runs

  /** What lies in a bucket that is being filled does not lie in its parent as well. */
  ghost predicate ApartFromParent<K, V>(buckets: seq<Bucket<K, V>>, w: nat)
    requires 0 < w < |buckets| && buckets[w].Rehashed?
  {
    WithoutTop(w) < |buckets| && buckets[WithoutTop(w)].Rehashed? ==>
      forall n :: n in buckets[w].nodes ==> !HasKey(buckets[WithoutTop(w)].nodes, n.key)
  }

  /** No key has two nodes. */
  ghost predicate Single<K, V>(buckets: seq<Bucket<K, V>>, work: set<nat>)
  {
    && (forall b :: 0 <= b < |buckets| && buckets[b].Rehashed? ==> Unique(buckets[b].nodes))
    && (forall w :: w in work && 0 < w < |buckets| && buckets[w].Rehashed? ==> ApartFromParent(buckets, w))
  }

  lemma MarkKeepsSingle<K, V>(buckets: seq<Bucket<K, V>>, work: set<nat>, b: nat)
    requires Single(buckets, work) && b < |buckets| && buckets[b].RehashRequired?
    ensures Single(buckets[b := Rehashed([])], work + {b})
  {
    var buckets' := buckets[b := Rehashed([])];
    forall w | w in work + {b} && 0 < w < |buckets'| && buckets'[w].Rehashed? ensures ApartFromParent(buckets', w) {
      if w != b { assert buckets'[w] == buckets[w] && ApartFromParent(buckets, w); }
    }
  }

  lemma Shorter<K, V>(nodes: seq<Node<K, V>>, i: nat)
    requires Unique(nodes) && i < |nodes|
    ensures var rest := nodes[..i] + nodes[i + 1..];
      && Unique(rest) && !HasKey(rest, nodes[i].key)
      && forall n :: n in rest ==> n in nodes && n.key != nodes[i].key
  {
    var rest := nodes[..i] + nodes[i + 1..];
    forall k | 0 <= k < |rest| ensures rest[k] == nodes[if k < i then k else k + 1] && rest[k].key != nodes[i].key {}
  }

  lemma FewerKeys<K, V>(nodes: seq<Node<K, V>>, i: nat, key: K)
    requires i < |nodes| && HasKey(nodes[..i] + nodes[i + 1..], key)
    ensures HasKey(nodes, key)
  {
    var rest := nodes[..i] + nodes[i + 1..];
    var k :| 0 <= k < |rest| && rest[k].key == key;
    assert nodes[if k < i then k else k + 1] == rest[k];
  }

  /** What is under a bucket that is still being filled is empty. */
  lemma NothingBelow<K, V>(v: View<K, V>, buckets: seq<Bucket<K, V>>, work: set<nat>, w: nat)
    requires Midway(v, buckets, work) && w in work && WithoutTop(w) !in v.done
    ensures buckets[w].nodes == []
  {
    hide WithoutTop, BelongsIn, Home;
    if buckets[w].nodes != [] {
      var n := buckets[w].nodes[0];
      assert n in buckets[w].nodes && NodesMidway(v, work, w, buckets[w].nodes);
      assert NodeMidway(v, work, w, n);
      HomeIsDone(v, buckets, work, n.key);
    }
  }

  lemma MoveKeepsSingle<K, V>(v: View<K, V>, buckets: seq<Bucket<K, V>>, work: set<nat>, b: nat, i: nat)
    requires Midway(v, buckets, work) && Single(buckets, work)
    requires b in work && WithoutTop(b) in v.done && i < |buckets[WithoutTop(b)].nodes|
    ensures Single(Relink(buckets, WithoutTop(b), b, i), work)
  {
    hide BelongsIn, Home, Closed, WithoutTop, HasKey, Present, Moving, NodesMidway;
    var p := WithoutTop(b);
    var buckets', n := Relink(buckets, p, b, i), buckets[p].nodes[i];
    Shorter(buckets[p].nodes, i);
    assert ApartFromParent(buckets, b);
    KeyOf(buckets[p].nodes, i);
    assert forall m :: m in buckets[b].nodes ==> m.key != n.key;
    OneMore(buckets[b].nodes, buckets[b].nodes, n);
    forall w | w in work && 0 < w < |buckets'| && buckets'[w].Rehashed? ensures ApartFromParent(buckets', w) {
      assert ApartFromParent(buckets, w);
      if w == b || WithoutTop(w) == p {
        forall m | m in buckets'[w].nodes ensures !HasKey(buckets'[p].nodes, m.key) {
          if HasKey(buckets'[p].nodes, m.key) { FewerKeys(buckets[p].nodes, i, m.key); }
        }
      } else if WithoutTop(w) == b {
        NothingBelow(v, buckets, work, w);
      }
    }
  }

  lemma KeyOf<K, V>(nodes: seq<Node<K, V>>, i: nat)
    requires i < |nodes|
    ensures HasKey(nodes, nodes[i].key)
  {}

  /** A new key is in no bucket. */
  lemma InsertKeepsSingle<K, V>(v: View<K, V>, buckets: seq<Bucket<K, V>>, work: set<nat>, key: K, value: V, b: nat)
    requires Midway(v, buckets, work) && Single(buckets, work) && key !in v.contents
    requires b < |buckets| && buckets[b].Rehashed? && b !in work
    ensures Single(buckets[b := Rehashed([Node(key, value)] + buckets[b].nodes)], work)
  {
    hide BelongsIn, Home, Closed, WithoutTop, HasKey, Present, Moving;
    var n := Node(key, value);
    var buckets' := buckets[b := Rehashed([n] + buckets[b].nodes)];
    forall c, m | 0 <= c < |buckets| && buckets[c].Rehashed? && m in buckets[c].nodes ensures m.key != key {
      assert NodesMidway(v, work, c, buckets[c].nodes) && NodeMidway(v, work, c, m);
    }
    OneMore(buckets[b].nodes, buckets[b].nodes, n);
    forall w | w in work && 0 < w < |buckets'| && buckets'[w].Rehashed? ensures ApartFromParent(buckets', w) {
      assert ApartFromParent(buckets, w);
      if WithoutTop(w) == b {
        forall m | m in buckets'[w].nodes ensures !HasKey(buckets'[b].nodes, m.key) {
          HasAlso(buckets[b].nodes, n, m.key);
        }
      }
    }
  }

  /** The buckets without the `i`-th node of bucket `b`. */
  function Without<K, V>(buckets: seq<Bucket<K, V>>, b: nat, i: nat): seq<Bucket<K, V>>
    requires b < |buckets| && buckets[b].Rehashed? && i < |buckets[b].nodes|
  {
    buckets[b := Rehashed(buckets[b].nodes[..i] + buckets[b].nodes[i + 1..])]
  }

  lemma EraseKeepsSingle<K, V>(buckets: seq<Bucket<K, V>>, work: set<nat>, b: nat, i: nat)
    requires Single(buckets, work) && b < |buckets| && buckets[b].Rehashed? && i < |buckets[b].nodes| && b !in work
    ensures Single(Without(buckets, b, i), work)
  {
    hide WithoutTop, HasKey;
    var buckets' := Without(buckets, b, i);
    Shorter(buckets[b].nodes, i);
    forall w | w in work && 0 < w < |buckets'| && buckets'[w].Rehashed? ensures ApartFromParent(buckets', w) {
      assert ApartFromParent(buckets, w);
      if WithoutTop(w) == b {
        forall m | m in buckets'[w].nodes ensures !HasKey(buckets'[b].nodes, m.key) {
          if HasKey(buckets'[b].nodes, m.key) { FewerKeys(buckets[b].nodes, i, m.key); }
        }
      }
    }
  }

  /** No other node has the key of a node that is at home. */
  lemma OnlyNode<K, V>(v: View<K, V>, buckets: seq<Bucket<K, V>>, work: set<nat>, b: nat, i: nat, c: nat, m: Node<K, V>)
    requires Midway(v, buckets, work) && Single(buckets, work)
    requires b < |buckets| && buckets[b].Rehashed? && i < |buckets[b].nodes| && b !in work
    requires c < |buckets| && buckets[c].Rehashed? && m in Without(buckets, b, i)[c].nodes
    ensures m in buckets[c].nodes && m.key != buckets[b].nodes[i].key
  {
    hide BelongsIn, Home, Closed, WithoutTop, HasKey, Present, Moving;
    var n := buckets[b].nodes[i];
    Shorter(buckets[b].nodes, i);
    assert m in buckets[c].nodes && n in buckets[b].nodes;
    assert NodesMidway(v, work, c, buckets[c].nodes) && NodeMidway(v, work, c, m);
    assert NodesMidway(v, work, b, buckets[b].nodes) && NodeMidway(v, work, b, n);
    KeyOf(buckets[b].nodes, i);
    if c in work { assert ApartFromParent(buckets, c); }
  }

  /** A thread erases a node from a bucket that is not being filled, under whatever mask it has found it. */
  lemma EraseKeepsMidway<K, V>(v: View<K, V>, buckets: seq<Bucket<K, V>>, work: set<nat>, b: nat, i: nat)
    requires Midway(v, buckets, work) && Single(buckets, work)
    requires b < |buckets| && buckets[b].Rehashed? && i < |buckets[b].nodes| && b !in work
    ensures Midway(v.(contents := v.contents - {buckets[b].nodes[i].key}), Without(buckets, b, i), work)
  {
    hide BelongsIn, Home, Closed, WithoutTop, HasKey;
    var key := buckets[b].nodes[i].key;
    var buckets', v' := Without(buckets, b, i), v.(contents := v.contents - {key});
    assert v'.done == Done(buckets', work);
    forall c | 0 <= c < |buckets'| && buckets'[c].Rehashed? ensures NodesMidway(v', work, c, buckets'[c].nodes) {
      assert NodesMidway(v, work, c, buckets[c].nodes);
      forall m | m in buckets'[c].nodes ensures NodeMidway(v', work, c, m) {
        OnlyNode(v, buckets, work, b, i, c, m);
        assert NodeMidway(v, work, c, m) && HomeOf(v', m.key) == HomeOf(v, m.key);
      }
    }
    forall k | k in v'.contents
      ensures Present(v', buckets', k) || exists w :: Moving(v', buckets', work, k, w)
    {
      assert HomeOf(v', k) == HomeOf(v, k);
      if Present(v, buckets, k) {
        if HomeOf(v, k) == b { OthersRemain(buckets[b].nodes, i, k); }
        assert Present(v', buckets', k);
      } else {
        var w :| Moving(v, buckets, work, k, w);
        assert Moving(v', buckets', work, k, w);
      }
    }
  }

  /** The table that several threads use. */
  datatype Table<!K, V> = Table(view: View<K, V>, buckets: seq<Bucket<K, V>>, work: set<nat>)

  datatype Event<K, V> =
    | Mark(b: nat)                            // a thread starts to fill bucket b
    | Move(b: nat, i: nat)                    // it relinks the i-th node of the parent
    | Fill(b: nat)                            // it has found all nodes that belong in b
    | Grow
    | Insert(key: K, value: V, j: nat)        // under the mask of level j, after a miss and without a collision
    | Erase(b: nat, i: nat)

  ghost predicate TableInv<K, V>(t: Table<K, V>)
  {
    Midway(t.view, t.buckets, t.work) && Single(t.buckets, t.work)
  }

  ghost predicate Enabled<K, V>(t: Table<K, V>, e: Event<K, V>)
  {
    match e
    case Mark(b) => b < |t.buckets| && t.buckets[b].RehashRequired?
    case Move(b, i) =>
      && 0 < b < |t.buckets| && b in t.work && t.buckets[b].Rehashed? && WithoutTop(b) in t.view.done
      && WithoutTop(b) < |t.buckets| && WithoutTop(b) != b && t.buckets[WithoutTop(b)].Rehashed?
      && i < |t.buckets[WithoutTop(b)].nodes| && BelongsIn(t.view.hash(t.buckets[WithoutTop(b)].nodes[i].key), b)
    case Fill(b) =>
      && 0 < b < |t.buckets| && b in t.work && WithoutTop(b) in t.view.done
      && WithoutTop(b) < |t.buckets| && t.buckets[WithoutTop(b)].Rehashed?
      && forall n :: n in t.buckets[WithoutTop(b)].nodes ==> !BelongsIn(t.view.hash(n.key), b)
    case Grow => |t.buckets| <= Pow2(NextLevel(t.view.level))
    case Insert(key, _, j) =>
      1 <= j <= t.view.level && MissedUnder(t.view, t.buckets, key, j) && Masked(t.view.hash(key), j) !in t.work
    case Erase(b, i) => b < |t.buckets| && t.buckets[b].Rehashed? && i < |t.buckets[b].nodes| && b !in t.work
  }

  ghost function Next<K, V>(t: Table<K, V>, e: Event<K, V>): Table<K, V>
    requires Enabled(t, e)
  {
    match e
    case Mark(b) => t.(buckets := t.buckets[b := Rehashed([])], work := t.work + {b})
    case Move(b, i) => t.(buckets := Relink(t.buckets, WithoutTop(b), b, i))
    case Fill(b) => t.(view := t.view.(done := t.view.done + {b}), work := t.work - {b})
    case Grow =>
      var level := NextLevel(t.view.level);
      t.(view := t.view.(level := level), buckets := t.buckets + Flagged(Pow2(level) - |t.buckets|))
    case Insert(key, value, j) =>
      var b := Masked(t.view.hash(key), j);
      t.(view := t.view.(contents := t.view.contents[key := value]),
         buckets := t.buckets[b := Rehashed([Node(key, value)] + t.buckets[b].nodes)])
    case Erase(b, i) =>
      t.(view := t.view.(contents := t.view.contents - {t.buckets[b].nodes[i].key}), buckets := Without(t.buckets, b, i))
  }

  /** Every step of every thread keeps each node where it is found, and alone. */
  lemma StepInv<K, V>(t: Table<K, V>, e: Event<K, V>)
    requires TableInv(t) && Enabled(t, e)
    ensures TableInv(Next(t, e))
  {
    hide Midway, Single, MissedUnder, BelongsIn, WithoutTop, Pow2, Masked;
    match e
    case Mark(b) =>
      MarkKeepsMidway(t.view, t.buckets, t.work, b);
      MarkKeepsSingle(t.buckets, t.work, b);
    case Move(b, i) =>
      MoveKeepsMidway(t.view, t.buckets, t.work, b, i);
      MoveKeepsSingle(t.view, t.buckets, t.work, b, i);
    case Fill(b) =>
      FillKeepsMidway(t.view, t.buckets, t.work, b);
      FewerAtWork(t.buckets, t.work, b);
    case Grow =>
      GrowKeepsMidway(t.view, t.buckets, t.work, NextLevel(t.view.level));
      WorkInTable(t.view, t.buckets, t.work);
      GrowKeepsSingle(t.buckets, t.work, Pow2(NextLevel(t.view.level)) - |t.buckets|);
    case Insert(key, value, j) =>
      StaleSearchIsSound(t.view, t.buckets, t.work, key, j);
      StaleInsertKeepsMidway(t.view, t.buckets, t.work, key, value, j);
      MissedBucket(t.view, t.buckets, key, j);
      InsertKeepsSingle(t.view, t.buckets, t.work, key, value, Masked(t.view.hash(key), j));
    case Erase(b, i) =>
      EraseKeepsMidway(t.view, t.buckets, t.work, b, i);
      EraseKeepsSingle(t.buckets, t.work, b, i);
  }

  lemma MissedBucket<K, V>(v: View<K, V>, buckets: seq<Bucket<K, V>>, key: K, j: nat)
    requires 1 <= j <= v.level && MissedUnder(v, buckets, key, j)
    ensures Masked(v.hash(key), j) < |buckets| && buckets[Masked(v.hash(key), j)].Rehashed?
  {}

  lemma WorkInTable<K, V>(v: View<K, V>, buckets: seq<Bucket<K, V>>, work: set<nat>)
    requires Midway(v, buckets, work)
    ensures forall w :: w in work ==> w < |buckets|
  {}

  lemma FewerAtWork<K, V>(buckets: seq<Bucket<K, V>>, work: set<nat>, b: nat)
    requires Single(buckets, work)
    ensures Single(buckets, work - {b})
  {}

  lemma GrowKeepsSingle<K, V>(buckets: seq<Bucket<K, V>>, work: set<nat>, more: nat)
    requires Single(buckets, work) && forall w :: w in work ==> w < |buckets|
    ensures Single(buckets + Flagged(more), work)
  {
    var buckets' := buckets + Flagged(more);
    forall w | w in work && 0 < w < |buckets'| && buckets'[w].Rehashed? ensures ApartFromParent(buckets', w) {
      assert ApartFromParent(buckets, w);
    }
  }

  /** The table after the events `es`; one that is not enabled when its turn comes changes nothing. */
  ghost function After<K, V>(t: Table<K, V>, es: seq<Event<K, V>>): Table<K, V>
  {
    if es == [] then t
    else
      var before, e := After(t, es[..|es| - 1]), es[|es| - 1];
      if Enabled(before, e) then Next(before, e) else before
  }

  lemma {:induction false} AfterInv<K, V>(t: Table<K, V>, es: seq<Event<K, V>>)
    requires TableInv(t)
    ensures TableInv(After(t, es))
  {
    hide TableInv, Enabled, Next;
    if es != [] {
      AfterInv(t, es[..|es| - 1]);
      var before, e := After(t, es[..|es| - 1]), es[|es| - 1];
      if Enabled(before, e) { StepInv(before, e); }
    }
  }

  /** The embedded buckets, empty. */
  ghost predicate Initial<K, V>(t: Table<K, V>)
  {
    t.view.level == 1 && t.view.done == {0, 1} && t.view.contents == map[]
    && t.buckets == [Rehashed([]), Rehashed([])] && t.work == {}
  }

  lemma InitialInv<K, V>(t: Table<K, V>)
    requires Initial(t)
    ensures TableInv(t)
  {
    assert Pow2(1) == 2 * Pow2(0);
    assert t.view.done == Done(t.buckets, t.work);
  }

  /**
   In every run of threads that fill buckets, grow the table, insert under stale masks, and erase: a search
   under any mask, of a bucket that is not being filled, is right about a key that it finds, and, when it sees
   no collision with rehashing, about one that it misses; and when no bucket is being filled, the table is
   that of a single thread.
   */
  lemma RunsFind<K, V>(init: Table<K, V>, es: seq<Event<K, V>>, key: K, j: nat)
    requires Initial(init)
    requires var t := After(init, es); 1 <= j <= t.view.level && Masked(t.view.hash(key), j) < |t.buckets|
    requires var t := After(init, es); Masked(t.view.hash(key), j) !in t.work
    ensures var t := After(init, es); var b := t.buckets[Masked(t.view.hash(key), j)];
      && (b.Rehashed? && HasKey(b.nodes, key) ==> key in t.view.contents)
      && (MissedUnder(t.view, t.buckets, key, j) ==> key !in t.view.contents)
    ensures var t := After(init, es); t.work == {} ==> TableOk(t.view, t.buckets, {})
  {
    hide Initial, Masked, TableOk;
    InitialInv(init);
    AfterInv(init, es);
    var t := After(init, es);
    HitIsRight(t, key, Masked(t.view.hash(key), j));
    if MissedUnder(t.view, t.buckets, key, j) { StaleSearchIsSound(t.view, t.buckets, t.work, key, j); }
    if t.work == {} { RestIsTable(t.view, t.buckets); }
  }

  lemma HitIsRight<K, V>(t: Table<K, V>, key: K, b: nat)
    requires TableInv(t) && b < |t.buckets|
    ensures t.buckets[b].Rehashed? && HasKey(t.buckets[b].nodes, key) ==> key in t.view.contents
  {
    if t.buckets[b].Rehashed? && HasKey(t.buckets[b].nodes, key) {
      var n := KeyIsThere(t.buckets[b].nodes, key);
      assert NodesMidway(t.view, t.work, b, t.buckets[b].nodes) && NodeMidway(t.view, t.work, b, n);
    }
  }

  lemma RestIsTable<K, V>(v: View<K, V>, buckets: seq<Bucket<K, V>>)
    requires Midway(v, buckets, {}) && Single(buckets, {})
    ensures TableOk(v, buckets, {})
  {
    hide BelongsIn, WithoutTop, Home;
    forall b | 0 <= b < |buckets| && buckets[b].Rehashed? ensures NodesOk(v, b, buckets[b].nodes) {
      assert NodesMidway(v, {}, b, buckets[b].nodes);
      forall i | 0 <= i < |buckets[b].nodes| ensures NodeOk(v, b, buckets[b].nodes[i]) {
        assert NodeMidway(v, {}, b, buckets[b].nodes[i]);
      }
    }
  }

  // ----- filling ends

  /**
   In every run, the smallest bucket that is being filled can go on: its parent's flag is to be lowered
   first, or a node of the parent is to be moved, or it has all its nodes.
   */
  lemma FillingGoesOn<K, V>(init: Table<K, V>, es: seq<Event<K, V>>, b: nat) returns (e: Event<K, V>)
    requires Initial(init)
    requires var work := After(init, es).work; b in work && forall w :: w in work ==> b <= w
    ensures b > 1 && Enabled(After(init, es), e) && (e == Mark(WithoutTop(b)) || (e.Move? && e.b == b) || e == Fill(b))
  {
    hide Initial, BelongsIn, Pow2;
    InitialInv(init);
    AfterInv(init, es);
    var t := After(init, es);
    var parent := WithoutTop(b);
    ParentIsSmaller(b);
    if t.buckets[parent].RehashRequired? {
      e := Mark(parent);
    } else if i :| 0 <= i < |t.buckets[parent].nodes| && BelongsIn(t.view.hash(t.buckets[parent].nodes[i].key), b) {
      e := Move(b, i);
    } else {
      e := Fill(b);
    }
  }

  lemma ParentIsSmaller(b: nat)
    requires b > 0
    ensures WithoutTop(b) < b
  {}
}
