/**
 The concurrent hash map, used by one thread at a time: buckets that are rehashed when they are first
 needed, chains of nodes relinked in place, and a table that doubles.  It refines a map.

 The buckets are a sequence here; module SegmentTable shows that the segments they lie in are one.
 `work` are buckets whose flag is already lowered while their nodes have not yet been moved in.  What
 several threads do to the buckets at once is the subject of module SharedHashMap.
 */
module HashMap {
  import opened CircularIndex
  import opened PowersOfTwo
  import opened LazyRehash
  import opened Wrappers
  import SegmentTable

  datatype Node<K, V> = Node(key: K, value: V)

  datatype Bucket<K, V> = RehashRequired | Rehashed(nodes: seq<Node<K, V>>)

  /** The table as its invariant sees it: the buckets that are rehashed, and what the map contains. */
  datatype View<!K, V> = View(hash: K -> nat, done: set<nat>, level: nat, contents: map<K, V>)

  function HomeOf<K, V>(v: View<K, V>, key: K): nat
  {
    Home(v.done, v.hash(key), v.level)
  }

  predicate HasKey<K(==), V>(nodes: seq<Node<K, V>>, key: K)
  {
    exists i :: 0 <= i < |nodes| && nodes[i].key == key
  }

  /** The node is in its home, and holds what the map contains for its key. */
  ghost predicate NodeOk<K, V>(v: View<K, V>, b: nat, n: Node<K, V>)
  {
    HomeOf(v, n.key) == b && n.key in v.contents && v.contents[n.key] == n.value
  }

  ghost predicate Unique<K, V>(nodes: seq<Node<K, V>>)
  {
    forall i, j :: 0 <= i < j < |nodes| ==> nodes[i].key != nodes[j].key
  }

  ghost predicate NodesOk<K, V>(v: View<K, V>, b: nat, nodes: seq<Node<K, V>>)
  {
    Unique(nodes) && forall i :: 0 <= i < |nodes| ==> NodeOk(v, b, nodes[i])
  }

  /** The key has its node. */
  ghost predicate Present<K, V>(v: View<K, V>, buckets: seq<Bucket<K, V>>, key: K)
  {
    var b := HomeOf(v, key);
    b < |buckets| && buckets[b].Rehashed? && HasKey(buckets[b].nodes, key)
  }

  ghost function Done<K, V>(buckets: seq<Bucket<K, V>>, work: set<nat>): set<nat>
  {
    set b: nat | b < |buckets| && buckets[b].Rehashed? && b !in work
  }

  ghost predicate TableOk<K, V>(v: View<K, V>, buckets: seq<Bucket<K, V>>, work: set<nat>)
  {
    && v.level >= 1 && |buckets| == Pow2(v.level)
    && v.done == Done(buckets, work) && Closed(v.done)
    && (forall w :: w in work ==> w < |buckets| && buckets[w] == Rehashed([]))
    && (forall b :: 0 <= b < |buckets| && buckets[b].Rehashed? ==> NodesOk(v, b, buckets[b].nodes))
    && (forall key :: key in v.contents ==> Present(v, buckets, key))
  }

  /** Every hash has its home in the table. */
  lemma HomeInTable<K, V>(v: View<K, V>, buckets: seq<Bucket<K, V>>, work: set<nat>, h: nat)
    requires TableOk(v, buckets, work)
    ensures var b := Home(v.done, h, v.level); b < |buckets| && buckets[b].Rehashed? && b !in work
    ensures Masked(h, v.level) < |buckets|
    ensures Masked(h, v.level) in v.done ==> Home(v.done, h, v.level) == Masked(h, v.level)
  {
    var _ := HomeOnChain(v.done, h, v.level);
  }

  /** A search of its home finds a key exactly when the map contains it. */
  lemma SearchIsExact<K, V>(v: View<K, V>, buckets: seq<Bucket<K, V>>, work: set<nat>, key: K)
    requires TableOk(v, buckets, work)
    ensures var b := HomeOf(v, key);
      && b < |buckets| && buckets[b].Rehashed?
      && (HasKey(buckets[b].nodes, key) <==> key in v.contents)
  {
    HomeInTable(v, buckets, work, v.hash(key));
    if key in v.contents { assert Present(v, buckets, key); }
    var b := HomeOf(v, key);
    if HasKey(buckets[b].nodes, key) {
      var i :| 0 <= i < |buckets[b].nodes| && buckets[b].nodes[i].key == key;
      assert NodeOk(v, b, buckets[b].nodes[i]);
    }
  }

  // ----- rehashing

  /** The nodes that stay in the parent when `b` is rehashed. */
  function Stay<K, V>(nodes: seq<Node<K, V>>, hash: K -> nat, b: nat): seq<Node<K, V>>
    requires b > 0
  {
    if nodes == [] then []
    else
      var n := nodes[|nodes| - 1];
      Stay(nodes[..|nodes| - 1], hash, b) + if BelongsIn(hash(n.key), b) then [] else [n]
  }

  /** The nodes that move to `b`, each put in front of those before it. */
  function Moved<K, V>(nodes: seq<Node<K, V>>, hash: K -> nat, b: nat): seq<Node<K, V>>
    requires b > 0
  {
    if nodes == [] then []
    else
      var n := nodes[|nodes| - 1];
      (if BelongsIn(hash(n.key), b) then [n] else []) + Moved(nodes[..|nodes| - 1], hash, b)
  }

  /** Nothing is lost or invented by dividing the nodes. */
  lemma {:induction false} DivideNodes<K, V>(nodes: seq<Node<K, V>>, hash: K -> nat, b: nat)
    requires b > 0
    ensures forall n :: n in Stay(nodes, hash, b) ==> n in nodes && !BelongsIn(hash(n.key), b)
    ensures forall n :: n in Moved(nodes, hash, b) ==> n in nodes && BelongsIn(hash(n.key), b)
    ensures forall n :: n in nodes ==>
      if BelongsIn(hash(n.key), b) then n in Moved(nodes, hash, b) else n in Stay(nodes, hash, b)
  {
    hide BelongsIn;
    if nodes != [] {
      DivideNodes(nodes[..|nodes| - 1], hash, b);
      assert nodes == nodes[..|nodes| - 1] + [nodes[|nodes| - 1]];
    }
  }

  lemma OneMore<K, V>(part: seq<Node<K, V>>, nodes: seq<Node<K, V>>, n: Node<K, V>)
    requires Unique(part) && (forall m :: m in part ==> m in nodes) && (forall m :: m in nodes ==> m.key != n.key)
    ensures Unique(part + [n]) && Unique([n] + part)
  {}

  lemma LastIsNew<K, V>(nodes: seq<Node<K, V>>)
    requires Unique(nodes) && nodes != []
    ensures Unique(nodes[..|nodes| - 1])
    ensures forall m :: m in nodes[..|nodes| - 1] ==> m.key != nodes[|nodes| - 1].key
  {}

  lemma {:induction false} DividedAreUnique<K, V>(nodes: seq<Node<K, V>>, hash: K -> nat, b: nat)
    requires b > 0 && Unique(nodes)
    ensures Unique(Stay(nodes, hash, b)) && Unique(Moved(nodes, hash, b))
  {
    hide BelongsIn;
    if nodes != [] {
      var front, n := nodes[..|nodes| - 1], nodes[|nodes| - 1];
      DividedAreUnique(front, hash, b);
      DivideNodes(front, hash, b);
      LastIsNew(nodes);
      if BelongsIn(hash(n.key), b) {
        OneMore(Moved(front, hash, b), front, n);
      } else {
        OneMore(Stay(front, hash, b), front, n);
      }
    }
  }

  lemma KeyIsThere<K, V>(nodes: seq<Node<K, V>>, key: K) returns (n: Node<K, V>)
    requires HasKey(nodes, key)
    ensures n in nodes && n.key == key
  {
    var i :| 0 <= i < |nodes| && nodes[i].key == key;
    n := nodes[i];
  }

  /** The table after bucket `b` has been filled from its parent. */
  function Refill<K, V>(buckets: seq<Bucket<K, V>>, hash: K -> nat, b: nat): seq<Bucket<K, V>>
    requires 0 < b < |buckets| && WithoutTop(b) < |buckets| && buckets[WithoutTop(b)].Rehashed?
  {
    var p := WithoutTop(b);
    var nodes := buckets[p].nodes;
    buckets[p := Rehashed(Stay(nodes, hash, b))][b := Rehashed(Moved(nodes, hash, b))]
  }

  /** Rehashing a bucket keeps every node in its home, and the contents. */
  lemma RefillKeepsTable<K, V>(v: View<K, V>, buckets: seq<Bucket<K, V>>, work: set<nat>, b: nat)
    requires TableOk(v, buckets, work) && 1 < b < |buckets| && b in work && WithoutTop(b) in v.done
    ensures TableOk(v.(done := v.done + {b}), Refill(buckets, v.hash, b), work - {b})
    ensures v.done + {b} == Done(Refill(buckets, v.hash, b), work - {b})
  {
    hide BelongsIn, WithoutTop, Stay, Moved, Home, Unique;
    var p := WithoutTop(b);
    var nodes, buckets', v' := buckets[p].nodes, Refill(buckets, v.hash, b), v.(done := v.done + {b});
    DivideNodes(nodes, v.hash, b);
    assert NodesOk(v, p, nodes);
    DividedAreUnique(nodes, v.hash, b);
    assert v'.done == Done(buckets', work - {b});
    LowEnough(b, v.level);
    forall c | 0 <= c < |buckets'| && buckets'[c].Rehashed? ensures NodesOk(v', c, buckets'[c].nodes) {
      assert NodesOk(v, c, buckets[c].nodes) && NodesOk(v, p, nodes);
      forall i | 0 <= i < |buckets'[c].nodes| ensures NodeOk(v', c, buckets'[c].nodes[i]) {
        var n := buckets'[c].nodes[i];
        assert n in buckets'[c].nodes;
        assert n in nodes || n in buckets[c].nodes;
        NewHome(v, b, n.key);
      }
    }
    forall key | key in v'.contents ensures Present(v', buckets', key) {
      assert Present(v, buckets, key);
      NewHome(v, b, key);
      var n := KeyIsThere(buckets[HomeOf(v, key)].nodes, key);
      assert n in buckets'[HomeOf(v', key)].nodes;
    }
  }

  lemma LowEnough(b: nat, k: nat)
    requires 0 < b < Pow2(k)
    ensures Log2(b) < k
  {
    if k <= Log2(b) { Pow2Grows(k, Log2(b)); }
  }

  lemma NewHome<K, V>(v: View<K, V>, b: nat, key: K)
    requires v.level >= 1 && Next(v.done, b) && Log2(b) < v.level
    ensures var v' := v.(done := v.done + {b});
      if BelongsIn(v.hash(key), b) then HomeOf(v, key) == WithoutTop(b) && HomeOf(v', key) == b
      else HomeOf(v', key) == HomeOf(v, key)
  {
    HomeAfterRehash(v.done, b, v.hash(key), v.level);
  }

  // ----- insertion, removal and growth

  /** Changing the nodes of one bucket, and the contents for keys that are at home in it. */
  lemma ChangeKeepsTable<K, V>(v: View<K, V>, buckets: seq<Bucket<K, V>>, b: nat, nodes: seq<Node<K, V>>,
                               contents: map<K, V>)
    requires TableOk(v, buckets, {}) && b < |buckets| && buckets[b].Rehashed?
    requires NodesOk(v.(contents := contents), b, nodes)
    requires forall key :: key in contents ==> HomeOf(v, key) != b || HasKey(nodes, key)
    requires forall key :: HomeOf(v, key) != b ==>
      (key in contents <==> key in v.contents) && (key in contents ==> contents[key] == v.contents[key])
    ensures TableOk(v.(contents := contents), buckets[b := Rehashed(nodes)], {})
    ensures v.done == Done(buckets[b := Rehashed(nodes)], {})
  {
    var buckets', v' := buckets[b := Rehashed(nodes)], v.(contents := contents);
    assert v'.done == Done(buckets', {});
    forall c | 0 <= c < |buckets'| && buckets'[c].Rehashed? ensures NodesOk(v', c, buckets'[c].nodes) {
      assert NodesOk(v, c, buckets[c].nodes);
      if c != b {
        forall i | 0 <= i < |buckets[c].nodes| ensures NodeOk(v', c, buckets[c].nodes[i]) {
          assert NodeOk(v, c, buckets[c].nodes[i]);
        }
      }
    }
    forall key | key in v'.contents ensures Present(v', buckets', key) {
      assert HomeOf(v', key) == HomeOf(v, key);
      if HomeOf(v, key) != b { assert Present(v, buckets, key); }
    }
  }

  lemma InsertKeepsTable<K, V>(v: View<K, V>, buckets: seq<Bucket<K, V>>, key: K, value: V)
    requires TableOk(v, buckets, {}) && key !in v.contents
    ensures var b := HomeOf(v, key);
      && b < |buckets| && buckets[b].Rehashed?
      && TableOk(v.(contents := v.contents[key := value]),
                 buckets[b := Rehashed([Node(key, value)] + buckets[b].nodes)], {})
      && v.done == Done(buckets[b := Rehashed([Node(key, value)] + buckets[b].nodes)], {})
  {
    SearchIsExact(v, buckets, {}, key);
    var b := HomeOf(v, key);
    var before, contents' := buckets[b].nodes, v.contents[key := value];
    var nodes, v' := [Node(key, value)] + before, v.(contents := contents');
    assert NodesOk(v, b, before);
    forall i | 0 <= i < |nodes| ensures NodeOk(v', b, nodes[i]) && (i > 0 ==> nodes[i].key != key) {
      if i > 0 { assert NodeOk(v, b, before[i - 1]); }
    }
    forall k | k in contents' ensures HomeOf(v, k) != b || HasKey(nodes, k) {
      if k == key { assert nodes[0].key == key; }
      else if HomeOf(v, k) == b {
        assert Present(v, buckets, k);
        var i :| 0 <= i < |before| && before[i].key == k;
        assert nodes[i + 1].key == k;
      }
    }
    ChangeKeepsTable(v, buckets, b, nodes, contents');
  }

  lemma EraseKeepsTable<K, V>(v: View<K, V>, buckets: seq<Bucket<K, V>>, b: nat, i: nat)
    requires TableOk(v, buckets, {}) && b < |buckets| && buckets[b].Rehashed? && i < |buckets[b].nodes|
    ensures var nodes := buckets[b].nodes;
      && TableOk(v.(contents := v.contents - {nodes[i].key}), buckets[b := Rehashed(nodes[..i] + nodes[i + 1..])], {})
      && v.done == Done(buckets[b := Rehashed(nodes[..i] + nodes[i + 1..])], {})
  {
    var nodes := buckets[b].nodes;
    var key, rest := nodes[i].key, nodes[..i] + nodes[i + 1..];
    var contents' := v.contents - {key};
    assert NodesOk(v, b, nodes) && NodeOk(v, b, nodes[i]);
    forall j | 0 <= j < |rest|
      ensures rest[j] == nodes[if j < i then j else j + 1] && NodeOk(v.(contents := contents'), b, rest[j])
    {
      assert NodeOk(v, b, nodes[if j < i then j else j + 1]);
    }
    forall k | k in contents' ensures HomeOf(v, k) != b || HasKey(rest, k) {
      if HomeOf(v, k) == b {
        assert Present(v, buckets, k);
        var j :| 0 <= j < |nodes| && nodes[j].key == k;
        assert rest[if j < i then j else j - 1] == nodes[j];
      }
    }
    ChangeKeepsTable(v, buckets, b, rest, contents');
  }

  /** `init_buckets`: buckets that are to be rehashed. */
  function Flagged<K, V>(n: nat): seq<Bucket<K, V>>
  {
    seq(n, _ => RehashRequired)
  }

  /** New buckets, all flagged, leave everything where it is. */
  lemma GrowKeepsTable<K, V>(v: View<K, V>, buckets: seq<Bucket<K, V>>, level: nat)
    requires TableOk(v, buckets, {}) && v.level <= level
    ensures Pow2(level) >= |buckets|
    ensures TableOk(v.(level := level), buckets + Flagged(Pow2(level) - |buckets|), {})
    ensures v.done == Done(buckets + Flagged(Pow2(level) - |buckets|), {})
  {
    Pow2Grows(v.level, level);
    var buckets' := buckets + Flagged(Pow2(level) - |buckets|);
    var v' := v.(level := level);
    assert v'.done == Done(buckets', {});
    forall key: K ensures HomeOf(v', key) == HomeOf(v, key) {
      HomeInLargerTable(v.done, v.hash(key), v.level, level);
    }
    forall c | 0 <= c < |buckets'| && buckets'[c].Rehashed? ensures NodesOk(v', c, buckets'[c].nodes) {
      assert NodesOk(v, c, buckets[c].nodes);
      forall i | 0 <= i < |buckets'[c].nodes| ensures NodeOk(v', c, buckets'[c].nodes[i]) {
        assert NodeOk(v, c, buckets[c].nodes[i]);
      }
    }
    forall k | k in v'.contents ensures Present(v', buckets', k) {
      assert Present(v, buckets, k);
    }
  }

  /** The level of the table once the segment after the last one has been enabled. */
  function NextLevel(level: nat): nat
  {
    if level < SegmentTable.FirstBlock then SegmentTable.FirstBlock else level + 1
  }

  lemma WithoutKey<K, V>(m: map<K, V>, key: K)
    ensures key in m ==> |m| > 0 && |m - {key}| == |m| - 1
    ensures key !in m ==> m - {key} == m
  {
    assert (m - {key}).Keys == m.Keys - {key};
    assert |m| == |m.Keys| && |m - {key}| == |(m - {key}).Keys|;
  }

  class HashMap<K(==), V> {
    const hash: K -> nat
    var buckets: seq<Bucket<K, V>>
    var mask: nat
    var mySize: nat

    ghost var level: nat
    ghost var contents: map<K, V>

    ghost function Seen(work: set<nat>): View<K, V>
      reads `buckets, `level, `contents
    {
      View(hash, Done(buckets, work), level, contents)
    }

    ghost predicate Table(work: set<nat>)
      reads `buckets, `level, `contents
    {
      TableOk(Seen(work), buckets, work)
    }

    ghost predicate Valid()
      reads this
    {
      Table({}) && mask + 1 == |buckets| && mySize == |contents| && (level == 1 || level >= SegmentTable.FirstBlock)
    }

    constructor (hash: K -> nat)
      ensures Valid() && contents == map[] && this.hash == hash
    {
      this.hash, mask, mySize, level, contents := hash, 1, 0, 1, map[];
      buckets := [Rehashed([]), Rehashed([])];
      assert Pow2(1) == 2 * Pow2(0);
    }

    /** Rehashes the bucket for the masked hash `b`, and before it, if need be, those above it. */
    method RehashBucket(b: nat, ghost work: set<nat>)
      requires Table(work) && 1 < b < |buckets| && buckets[b].RehashRequired? && forall w :: w in work ==> w > b
      modifies `buckets
      ensures Table(work) && |buckets| == old(|buckets|)
      ensures Done(buckets, work) >= Done(old(buckets), work) + {b}
      decreases b
    {
      hide TableOk;
      MarkKeepsTable(Seen(work), buckets, work, b);
      buckets := buckets[b := Rehashed([])];
      ParentByMask(b);
      var parent := b % Pow2(Log2(b));
      TableFacts(work + {b}, b);
      if buckets[parent].RehashRequired? {
        RehashBucket(parent, work + {b});
        TableFacts(work + {b}, b);
      }
      RefillKeepsTable(Seen(work + {b}), buckets, work + {b}, b);
      MoveNodes(b, parent);
      assert work + {b} - {b} == work;
    }

    lemma TableFacts(work: set<nat>, b: nat)
      requires Table(work) && 1 < b && b in work && forall w :: w in work ==> w >= b
      ensures b < |buckets| && buckets[b] == Rehashed([]) && WithoutTop(b) < b
      ensures buckets[WithoutTop(b)].Rehashed? ==> WithoutTop(b) in Done(buckets, work)
      ensures WithoutTop(b) <= 1 ==> buckets[WithoutTop(b)].Rehashed?
    {}

    /** Moves the nodes that belong in bucket `b` from its parent, one by one. */
    method MoveNodes(b: nat, parent: nat)
      requires 0 < b < |buckets| && parent == WithoutTop(b) < b && buckets[parent].Rehashed? && buckets[b] == Rehashed([])
      modifies `buckets
      ensures buckets == Refill(old(buckets), hash, b)
    {
      hide Pow2, Log2, BelongsIn, Stay, Moved;
      var fullMask := 2 * Pow2(Log2(b)) - 1;
      FullMask(b);
      ghost var all, j, was := buckets[parent].nodes, 0, buckets;
      var i := 0;
      DivideStarts(was, parent, b, hash);
      while i < |buckets[parent].nodes|
        invariant j <= |all| && i == |Stay(all[..j], hash, b)|
        invariant buckets == Divided(was, parent, b, hash, all, j)
        decreases |all| - j
      {
        DivideNext(was, parent, b, hash, all, j);
        var nodes := buckets[parent].nodes;
        var curr := nodes[i];
        if hash(curr.key) % (fullMask + 1) == b {
          buckets := buckets[parent := Rehashed(nodes[..i] + nodes[i + 1..])];
          buckets := buckets[b := Rehashed([curr] + buckets[b].nodes)];
        } else {
          i := i + 1;
        }
        j := j + 1;
      }
      DivideEnds(was, parent, b, hash, all, j);
    }

    lemma FullMask(b: nat)
      requires b > 0
      ensures forall h: nat :: h % (2 * Pow2(Log2(b)) - 1 + 1) == b <==> BelongsIn(h, b)
    {
      Doubled(Log2(b));
    }

    // ----- operations

    /** Makes sure that the bucket is rehashed. */
    method Acquire(b: nat)
      requires Valid() && b < |buckets|
      modifies `buckets
      ensures Valid() && |buckets| == old(|buckets|) && b in Done(buckets, {})
    {
      hide TableOk;
      LowBuckets();
      if buckets[b].RehashRequired? {
        RehashBucket(b, {});
      }
    }

    lemma LowBuckets()
      requires Table({})
      ensures |buckets| >= 2 && buckets[0].Rehashed? && buckets[1].Rehashed?
    {}

    /** The position of the key in the bucket, or its length. */
    method SearchBucket(key: K, b: nat) returns (i: nat)
      requires b < |buckets| && buckets[b].Rehashed?
      ensures i <= |buckets[b].nodes| && (i < |buckets[b].nodes| <==> HasKey(buckets[b].nodes, key))
      ensures i < |buckets[b].nodes| ==> buckets[b].nodes[i].key == key
    {
      i := 0;
      while i < |buckets[b].nodes| && buckets[b].nodes[i].key != key
        invariant i <= |buckets[b].nodes| && forall j :: 0 <= j < i ==> buckets[b].nodes[j].key != key
      {
        i := i + 1;
      }
    }

    /** `find`: looks the key up in the bucket for its hash, which may have to be rehashed first. */
    method Find(key: K) returns (found: Option<V>)
      requires Valid()
      modifies `buckets
      ensures Valid()
      ensures found == if key in contents then Some(contents[key]) else None
    {
      hide TableOk;
      var b := hash(key) % (mask + 1);
      Acquire(b);
      AtHome(key);
      var i := SearchBucket(key, b);
      found := if i < |buckets[b].nodes| then Some(buckets[b].nodes[i].value) else None;
    }

    /** Once the bucket for its hash is rehashed, that is the home of a key, and has its value. */
    lemma AtHome(key: K)
      requires Valid() && hash(key) % (mask + 1) in Done(buckets, {})
      ensures var b := hash(key) % (mask + 1);
        && HomeOf(Seen({}), key) == b < |buckets| && buckets[b].Rehashed?
        && (HasKey(buckets[b].nodes, key) <==> key in contents)
        && forall i :: 0 <= i < |buckets[b].nodes| && buckets[b].nodes[i].key == key ==>
             key in contents && contents[key] == buckets[b].nodes[i].value
    {
      HomeInTable(Seen({}), buckets, {}, hash(key));
      SearchIsExact(Seen({}), buckets, {}, key);
      var b := hash(key) % (mask + 1);
      forall i | 0 <= i < |buckets[b].nodes| && buckets[b].nodes[i].key == key
        ensures key in contents && contents[key] == buckets[b].nodes[i].value
      {
        assert NodeOk(Seen({}), b, buckets[b].nodes[i]);
      }
    }

    /**
     `insert`: adds the key unless it is there.  The table grows when it is full and the memory is to be
     had; otherwise the insertion stands, but ends in an exception.
     */
    method Insert(key: K, value: V, gotMemory: bool) returns (inserted: bool, threw: bool)
      requires Valid()
      modifies this
      ensures Valid()
      ensures inserted == (key !in old(contents))
      ensures contents == if inserted then old(contents)[key := value] else old(contents)
      ensures var grow := inserted && |contents| >= old(mask);
        && threw == (grow && !gotMemory)
        && level == (if grow && gotMemory then NextLevel(old(level)) else old(level))
        && |buckets| == (if !(grow && gotMemory) then old(|buckets|)
                         else if old(|buckets|) == SegmentTable.EmbeddedBuckets then Pow2(SegmentTable.FirstBlock)
                         else 2 * old(|buckets|))
    {
      hide TableOk;
      var b := hash(key) % (mask + 1);
      Acquire(b);
      AtHome(key);
      var i := SearchBucket(key, b);
      inserted, threw := false, false;
      if i == |buckets[b].nodes| {
        inserted := true;
        InsertKeepsTable(Seen({}), buckets, key, value);
        mySize := mySize + 1;
        buckets := buckets[b := Rehashed([Node(key, value)] + buckets[b].nodes)];
        contents := contents[key := value];
        if mySize >= mask {
          if gotMemory {
            EnableSegment(Log2(mask + 1));
          } else {
            threw := true;
          }
        }
      }
    }

    /** Allocates the buckets of segment `k`, or of all the first block, flagged for rehashing, and publishes the mask. */
    method EnableSegment(k: nat)
      requires Valid() && k == Log2(mask + 1)
      modifies `buckets, `mask, `level
      ensures Valid() && level == NextLevel(old(level))
      ensures |buckets| == (if old(|buckets|) == SegmentTable.EmbeddedBuckets then Pow2(SegmentTable.FirstBlock)
                            else 2 * old(|buckets|))
      ensures buckets[..old(|buckets|)] == old(buckets)
      ensures forall b :: old(|buckets|) <= b < |buckets| ==> buckets[b] == RehashRequired
    {
      hide TableOk, Pow2;
      LevelIs();
      GrowKeepsTable(Seen({}), buckets, NextLevel(level));
      var sz;
      if k >= SegmentTable.FirstBlock {
        sz := Pow2(k);
        buckets := buckets + Flagged(sz);
        sz := 2 * sz;
      } else {
        sz := Pow2(SegmentTable.FirstBlock);
        buckets := buckets + Flagged(sz - SegmentTable.EmbeddedBuckets);
      }
      level := NextLevel(level);
      mask := sz - 1;
    }

    lemma LevelIs()
      requires Valid()
      ensures Log2(mask + 1) == level && mask + 1 == Pow2(level) == |buckets|
      ensures level >= SegmentTable.FirstBlock ==> Pow2(level + 1) == 2 * Pow2(level)
      ensures level < SegmentTable.FirstBlock ==>
        level == 1 && Pow2(level) == SegmentTable.EmbeddedBuckets <= Pow2(SegmentTable.FirstBlock)
    {
      hide Pow2, Log2;
      SegmentTable.SmallPowers();
      Pow2Grows(1, SegmentTable.FirstBlock);
      Doubled(level);
      TableSize({});
      Log2IsUnique(mask + 1, level);
    }

    lemma Doubled(k: nat)
      ensures Pow2(k + 1) == 2 * Pow2(k)
    {}

    lemma TableSize(work: set<nat>)
      requires Table(work)
      ensures |buckets| == Pow2(level)
    {
    }

    /**
     `check_mask_race`, on behalf of a thread that has searched for hash `h` under the mask `oldMask`:
     whether the first bucket that the present mask would have had it look into instead is rehashed.
     */
    method CheckMaskRace(h: nat, oldMask: nat, ghost j: nat, ghost work: set<nat>) returns (race: bool, m: nat)
      requires Table(work) && mask + 1 == |buckets| && 1 <= j <= level && oldMask + 1 == Pow2(j)
      ensures m == mask
      ensures race == (Masked(h, j) != Masked(h, level) && Masked(h, NextChange(h, j, level)) < |buckets|
                       && buckets[Masked(h, NextChange(h, j, level))].Rehashed?)
    {
      hide Pow2, TableOk;
      TableSize(work);
      m := mask;
      race := false;
      if oldMask != m && h % (oldMask + 1) != h % (m + 1) {
        var bit := oldMask + 1;
        ghost var i := j;
        while h / bit % 2 == 0
          invariant j <= i < level && bit == Pow2(i) && Masked(h, i) == Masked(h, j)
          invariant NextChange(h, i, level) == NextChange(h, j, level)
          decreases level - i
        {
          OneMoreBit(h, i);
          Doubled(i);
          bit := 2 * bit;
          i := i + 1;
        }
        OneMoreBit(h, i);
        Doubled(i);
        Pow2Grows(i + 1, level);
        assert NextChange(h, i, level) == i + 1;
        race := buckets[h % (2 * bit)].Rehashed?;
      }
    }

    /** `erase`: removes the key if it is there. */
    method Erase(key: K) returns (erased: bool)
      requires Valid()
      modifies this
      ensures Valid() && level == old(level)
      ensures erased == (key in old(contents)) && contents == old(contents) - {key}
    {
      hide TableOk;
      var b := hash(key) % (mask + 1);
      Acquire(b);
      AtHome(key);
      var i := SearchBucket(key, b);
      WithoutKey(contents, key);
      erased := false;
      if i < |buckets[b].nodes| {
        erased := true;
        EraseKeepsTable(Seen({}), buckets, b, i);
        var nodes := buckets[b].nodes;
        buckets := buckets[b := Rehashed(nodes[..i] + nodes[i + 1..])];
        contents := contents - {key};
        mySize := mySize - 1;
      }
    }
  }

  /** The table when the first `j` of the parent's nodes `all` have been divided. */
  function Divided<K, V>(was: seq<Bucket<K, V>>, parent: nat, b: nat, hash: K -> nat, all: seq<Node<K, V>>, j: nat)
    : seq<Bucket<K, V>>
    requires 0 < b < |was| && parent < b && j <= |all|
  {
    was[parent := Rehashed(Stay(all[..j], hash, b) + all[j..])][b := Rehashed(Moved(all[..j], hash, b))]
  }

  lemma DivideStarts<K, V>(was: seq<Bucket<K, V>>, parent: nat, b: nat, hash: K -> nat)
    requires 0 < b < |was| && parent < b && was[parent].Rehashed? && was[b] == Rehashed([])
    ensures Divided(was, parent, b, hash, was[parent].nodes, 0) == was
    ensures Stay(was[parent].nodes[..0], hash, b) == []
  {
    assert [] + was[parent].nodes[0..] == was[parent].nodes;
  }

  /** One more node is divided: it is the next one of the parent's list, and leaves it or stays. */
  lemma DivideNext<K, V>(was: seq<Bucket<K, V>>, parent: nat, b: nat, hash: K -> nat, all: seq<Node<K, V>>, j: nat)
    requires 0 < b < |was| && parent < b && j <= |all|
    requires var i := |Stay(all[..j], hash, b)|; i < |Divided(was, parent, b, hash, all, j)[parent].nodes|
    ensures j < |all|
    ensures var i, now := |Stay(all[..j], hash, b)|, Divided(was, parent, b, hash, all, j);
      var nodes := now[parent].nodes;
      && nodes[i] == all[j]
      && Divided(was, parent, b, hash, all, j + 1) ==
        (if BelongsIn(hash(all[j].key), b)
         then now[parent := Rehashed(nodes[..i] + nodes[i + 1..])][b := Rehashed([all[j]] + now[b].nodes)]
         else now)
      && |Stay(all[..j + 1], hash, b)| == i + if BelongsIn(hash(all[j].key), b) then 0 else 1
  {
    hide BelongsIn;
    assert all[..j + 1][..j] == all[..j];
    var stay := Stay(all[..j], hash, b);
    var nodes := stay + all[j..];
    assert nodes[..|stay|] == stay && nodes[|stay| + 1..] == all[j + 1..];
    assert stay + [all[j]] + all[j + 1..] == nodes;
    if BelongsIn(hash(all[j].key), b) {
      assert Stay(all[..j + 1], hash, b) == stay;
      assert nodes[..|stay|] + nodes[|stay| + 1..] == stay + all[j + 1..];
    } else {
      assert Stay(all[..j + 1], hash, b) == stay + [all[j]];
      assert Moved(all[..j + 1], hash, b) == Moved(all[..j], hash, b);
    }
  }

  lemma DivideEnds<K, V>(was: seq<Bucket<K, V>>, parent: nat, b: nat, hash: K -> nat, all: seq<Node<K, V>>, j: nat)
    requires 0 < b < |was| && parent == WithoutTop(b) < b && j <= |all| && was[parent] == Rehashed(all)
    requires |Stay(all[..j], hash, b)| >= |Divided(was, parent, b, hash, all, j)[parent].nodes|
    ensures Divided(was, parent, b, hash, all, j) == Refill(was, hash, b)
  {
    hide BelongsIn, WithoutTop;
    assert all[..j] == all;
    assert Stay(all, hash, b) + all[j..] == Stay(all, hash, b);
  }

  /** Lowering the flag of a bucket before its nodes are there only adds to what is under way. */
  lemma MarkKeepsTable<K, V>(v: View<K, V>, buckets: seq<Bucket<K, V>>, work: set<nat>, b: nat)
    requires TableOk(v, buckets, work) && b < |buckets| && buckets[b].RehashRequired?
    ensures TableOk(v, buckets[b := Rehashed([])], work + {b}) && b !in v.done && b !in work
    ensures v.done == Done(buckets[b := Rehashed([])], work + {b}) == Done(buckets, work)
  {
    var buckets' := buckets[b := Rehashed([])];
    assert v.done == Done(buckets', work + {b});
    forall c | 0 <= c < |buckets'| && buckets'[c].Rehashed? ensures NodesOk(v, c, buckets'[c].nodes) {
      if c != b { assert NodesOk(v, c, buckets[c].nodes); }
    }
    forall key | key in v.contents ensures Present(v, buckets', key) { assert Present(v, buckets, key); }
  }
}
