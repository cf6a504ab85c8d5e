/**
 The cache of values by key: handles count references to a record, and records without a handle wait
 in a history list, from which the least recently released is evicted when the list is full.

 The operations of a batch are handled one after the other, so that a run is a sequence of operations.
 Computing the value, and waiting until another thread has done so, are not part of this model.
 */
module LruCache {
  import opened Sequences

  datatype Op<K> = Retrieve(key: K) | EndOfUsage(key: K)

  // ----- the cache as a value

  /** How many handles each key has, and the keys in history, the most recently released first. */
  datatype Cache<K> = Cache(live: multiset<K>, history: seq<K>)

  /** The sequence without the key. */
  function Without<K(==)>(s: seq<K>, key: K): (r: seq<K>)
    ensures forall k :: k in r ==> k in s && k != key
    ensures forall k :: k in s && k != key ==> k in r
    ensures key !in s ==> r == s
  {
    if s == [] then []
    else if s[0] == key then Without(s[1..], key)
    else [s[0]] + Without(s[1..], key)
  }

  function Take<K>(s: seq<K>, n: int): seq<K>
  {
    if n < 0 then [] else if n < |s| then s[..n] else s
  }

  /** An end of usage is for a key that has a handle. */
  predicate Allowed<K>(c: Cache<K>, op: Op<K>)
  {
    op.EndOfUsage? ==> op.key in c.live
  }

  function Apply<K(==)>(c: Cache<K>, op: Op<K>, capacity: nat): Cache<K>
  {
    match op
    case Retrieve(key) => Cache(c.live + multiset{key}, Without(c.history, key))
    case EndOfUsage(key) =>
      var live := c.live - multiset{key};
      Cache(live, if c.live[key] == 1 && capacity > 0 then [key] + Take(c.history, capacity - 1) else c.history)
  }

  function ApplyAll<K(==)>(c: Cache<K>, ops: seq<Op<K>>, capacity: nat): Cache<K>
  {
    if ops == [] then c else Apply(ApplyAll(c, ops[..|ops| - 1], capacity), ops[|ops| - 1], capacity)
  }

  /** Every end of usage in the run is for a key that has a handle then. */
  ghost predicate AllAllowed<K>(c: Cache<K>, ops: seq<Op<K>>, capacity: nat)
  {
    ops == [] ||
    (AllAllowed(c, ops[..|ops| - 1], capacity) && Allowed(ApplyAll(c, ops[..|ops| - 1], capacity), ops[|ops| - 1]))
  }

  ghost predicate Consistent<K>(c: Cache<K>, capacity: nat)
  {
    Distinct(c.history) && |c.history| <= capacity && forall k :: k in c.history ==> k !in c.live
  }

  lemma {:induction false} WithoutFacts<K>(s: seq<K>, key: K)
    requires Distinct(s)
    ensures Distinct(Without(s, key)) && |Without(s, key)| == |s| - if key in s then 1 else 0
  {
    if s != [] {
      WithoutFacts(s[1..], key);
      assert s == [s[0]] + s[1..];
      assert forall i :: 0 < i < |s| ==> s[i] == s[1..][i - 1];
      assert s[0] !in s[1..] && s[0] !in Without(s[1..], key);
    }
  }

  lemma {:induction false} WithoutOne<K>(s: seq<K>, i: nat)
    requires Distinct(s) && i < |s|
    ensures Without(s, s[i]) == s[..i] + s[i + 1..]
  {
    assert s == [s[0]] + s[1..];
    if i > 0 {
      WithoutOne(s[1..], i - 1);
      assert s[..i] == [s[0]] + s[1..][..i - 1];
    } else {
      assert s[0] !in s[1..];
    }
  }

  lemma WithoutThe<K>(s: seq<K>, key: K)
    requires Distinct(s)
    ensures forall i :: 0 <= i < |s| && s[i] == key ==> Without(s, key) == s[..i] + s[i + 1..]
  {
    forall i | 0 <= i < |s| && s[i] == key ensures Without(s, key) == s[..i] + s[i + 1..] { WithoutOne(s, i); }
  }

  lemma ApplyKeeps<K>(c: Cache<K>, op: Op<K>, capacity: nat)
    requires Consistent(c, capacity) && Allowed(c, op)
    ensures Consistent(Apply(c, op, capacity), capacity)
  {
    WithoutFacts(c.history, op.key);
  }

  lemma {:induction false} AlwaysConsistent<K>(ops: seq<Op<K>>, capacity: nat)
    requires AllAllowed(Cache(multiset{}, []), ops, capacity)
    ensures Consistent(ApplyAll(Cache(multiset{}, []), ops, capacity), capacity)
  {
    if ops != [] {
      AlwaysConsistent(ops[..|ops| - 1], capacity);
      ApplyKeeps(ApplyAll(Cache(multiset{}, []), ops[..|ops| - 1], capacity), ops[|ops| - 1], capacity);
    }
  }

  // ----- eviction takes the least recently released

  lemma {:induction false} WithoutOfPrefix<K>(p: seq<K>, s: seq<K>, key: K)
    requires p <= s
    ensures Without(p, key) <= Without(s, key)
  {
    if p != [] {
      WithoutOfPrefix(p[1..], s[1..], key);
    }
  }

  lemma ApplyKeepsPrefix<K>(s: Cache<K>, l: Cache<K>, op: Op<K>, small: nat, large: nat)
    requires small <= large && s.live == l.live && s.history <= l.history && |s.history| <= small
    ensures var s', l' := Apply(s, op, small), Apply(l, op, large); s'.live == l'.live && s'.history <= l'.history
  {
    WithoutOfPrefix(s.history, l.history, op.key);
    assert small > 0 ==> Take(s.history, small - 1) <= Take(l.history, large - 1);
  }

  /**
   A smaller cache holds what comes first in a larger one, however large: so what it evicts is what has
   been released least recently.
   */
  lemma {:induction false} SmallerCacheIsPrefix<K>(ops: seq<Op<K>>, small: nat, large: nat)
    requires small <= large && AllAllowed(Cache(multiset{}, []), ops, small)
    ensures var s, l := ApplyAll(Cache(multiset{}, []), ops, small), ApplyAll(Cache(multiset{}, []), ops, large);
      s.live == l.live && s.history <= l.history
  {
    hide Apply, Consistent;
    if ops != [] {
      var front, op := ops[..|ops| - 1], ops[|ops| - 1];
      SmallerCacheIsPrefix(front, small, large);
      AlwaysConsistent(front, small);
      var s, l := ApplyAll(Cache(multiset{}, []), front, small), ApplyAll(Cache(multiset{}, []), front, large);
      HistoryFits(s, small);
      ApplyKeepsPrefix(s, l, op, small, large);
    }
  }

  lemma HistoryFits<K>(c: Cache<K>, capacity: nat)
    requires Consistent(c, capacity)
    ensures |c.history| <= capacity
  {}

  /** When the key's usage last ended; -1 if never. */
  function LastEnd<K(==)>(ops: seq<Op<K>>, key: K): int
  {
    if ops == [] then -1
    else if ops[|ops| - 1] == EndOfUsage(key) then |ops| - 1
    else LastEnd(ops[..|ops| - 1], key)
  }

  lemma {:induction false} LastEndInRange<K>(ops: seq<Op<K>>, key: K)
    ensures -1 <= LastEnd(ops, key) < |ops|
  {
    if ops != [] { LastEndInRange(ops[..|ops| - 1], key); }
  }

  /** The keys are in the order in which their usage last ended, the latest first. */
  ghost predicate ByRelease<K>(ops: seq<Op<K>>, s: seq<K>)
  {
    && (forall i, j :: 0 <= i < j < |s| ==> LastEnd(ops, s[i]) > LastEnd(ops, s[j]))
    && (forall i :: 0 <= i < |s| ==> LastEnd(ops, s[i]) >= 0)
  }

  lemma {:induction false} WithoutKeepsOrder<K>(ops: seq<Op<K>>, s: seq<K>, key: K)
    requires ByRelease(ops, s)
    ensures ByRelease(ops, Without(s, key))
  {
    hide LastEnd;
    if s != [] {
      var rest := Without(s[1..], key);
      WithoutKeepsOrder(ops, s[1..], key);
      forall i | 0 <= i < |rest| ensures LastEnd(ops, s[0]) > LastEnd(ops, rest[i]) {
        assert rest[i] in rest && rest[i] in s[1..];
      }
    }
  }

  /** One more operation changes when the usage of its own key last ended, and no other's. */
  lemma OneMoreOp<K>(ops: seq<Op<K>>, s: seq<K>)
    requires ops != [] && ByRelease(ops[..|ops| - 1], s)
    requires var op := ops[|ops| - 1]; op.EndOfUsage? ==> op.key !in s
    ensures ByRelease(ops, s)
  {
    forall i | 0 <= i < |s| ensures LastEnd(ops, s[i]) == LastEnd(ops[..|ops| - 1], s[i]) {}
  }

  lemma Released<K>(ops: seq<Op<K>>, s: seq<K>, n: int)
    requires ops != [] && ops[|ops| - 1].EndOfUsage? && ByRelease(ops, s) && ops[|ops| - 1].key !in s
    ensures ByRelease(ops, [ops[|ops| - 1].key] + Take(s, n))
  {
    forall i | 0 <= i < |s| ensures LastEnd(ops, s[i]) < |ops| - 1 {
      LastEndInRange(ops[..|ops| - 1], s[i]);
    }
  }

  /** The history is in the order of release, the latest first, and holds only keys that have been released. */
  lemma {:induction false} HistoryIsByRelease<K>(ops: seq<Op<K>>, capacity: nat)
    requires AllAllowed(Cache(multiset{}, []), ops, capacity)
    ensures ByRelease(ops, ApplyAll(Cache(multiset{}, []), ops, capacity).history)
  {
    hide ByRelease;
    if ops == [] {
      NothingReleased<K>();
    } else {
      var front, op := ops[..|ops| - 1], ops[|ops| - 1];
      HistoryIsByRelease(front, capacity);
      AlwaysConsistent(front, capacity);
      var h := ApplyAll(Cache(multiset{}, []), front, capacity).history;
      if op.Retrieve? {
        WithoutKeepsOrder(front, h, op.key);
        OneMoreOp(ops, Without(h, op.key));
      } else {
        assert op.key !in h;
        OneMoreOp(ops, h);
        Released(ops, h, capacity - 1);
      }
    }
  }

  lemma NothingReleased<K>()
    ensures ByRelease<K>([], [])
  {}

  // ----- which keys are cached

  /** How many handles of the key have been given out and not taken back. */
  function Handles<K(==)>(ops: seq<Op<K>>, key: K): int
  {
    if ops == [] then 0
    else
      var op := ops[|ops| - 1];
      Handles(ops[..|ops| - 1], key) + if op == Retrieve(key) then 1 else if op == EndOfUsage(key) then -1 else 0
  }

  /** The keys without a handle whose usage ended after that of `key`. */
  ghost function Later<K>(ops: seq<Op<K>>, key: K): set<K>
  {
    set op | op in ops && Handles(ops, op.key) == 0 && LastEnd(ops, op.key) > LastEnd(ops, key) :: op.key
  }

  lemma {:induction false} LiveIsHandles<K>(ops: seq<Op<K>>, capacity: nat, key: K)
    requires AllAllowed(Cache(multiset{}, []), ops, capacity)
    ensures ApplyAll(Cache(multiset{}, []), ops, capacity).live[key] == Handles(ops, key)
  {
    if ops != [] {
      LiveIsHandles(ops[..|ops| - 1], capacity, key);
    }
  }

  lemma {:induction false} EndedIsTouched<K>(ops: seq<Op<K>>, key: K)
    requires LastEnd(ops, key) >= 0
    ensures EndOfUsage(key) in ops
  {
    if ops[|ops| - 1] != EndOfUsage(key) {
      EndedIsTouched(ops[..|ops| - 1], key);
      assert ops == ops[..|ops| - 1] + [ops[|ops| - 1]];
    }
  }

  /** A key belongs to those released later, whether or not there was an operation on it before. */
  lemma IsLater<K>(ops: seq<Op<K>>, key: K, k: K)
    ensures k in Later(ops, key) <==> Handles(ops, k) == 0 && LastEnd(ops, k) > LastEnd(ops, key)
  {
    LastEndInRange(ops, key);
    if LastEnd(ops, k) >= 0 { EndedIsTouched(ops, k); }
  }

  /** Since its usage last ended, the key has never come behind as many as fit. */
  ghost predicate NeverCrowdedOut<K>(ops: seq<Op<K>>, key: K, capacity: nat)
  {
    forall i :: 0 <= i <= |ops| && LastEnd(ops, key) < i ==> |Later(ops[..i], key)| < capacity
  }

  ghost predicate Kept<K>(ops: seq<Op<K>>, key: K, capacity: nat)
  {
    Handles(ops, key) == 0 && LastEnd(ops, key) >= 0 && NeverCrowdedOut(ops, key, capacity)
  }

  function Keys<K>(s: seq<K>): set<K>
  {
    set k | k in s
  }

  /** In front of each key in the history are just those released later. */
  ghost predicate InFront<K>(ops: seq<Op<K>>, s: seq<K>)
  {
    forall p :: 0 <= p < |s| ==> Later(ops, s[p]) == Keys(s[..p])
  }

  lemma {:induction false} KeysCount<K>(s: seq<K>)
    requires Distinct(s)
    ensures |Keys(s)| == |s|
  {
    if s != [] {
      KeysCount(s[1..]);
      assert s == [s[0]] + s[1..] && s[0] !in s[1..];
      assert Keys(s) == {s[0]} + Keys(s[1..]);
    }
  }

  /** How one more operation changes which keys were released later than another one. */
  lemma LaterAfter<K>(ops: seq<Op<K>>, key: K)
    requires ops != [] && key != ops[|ops| - 1].key
    requires Handles(ops[..|ops| - 1], ops[|ops| - 1].key) >= if ops[|ops| - 1].EndOfUsage? then 1 else 0
    ensures var before, op := Later(ops[..|ops| - 1], key), ops[|ops| - 1];
      Later(ops, key) == if Handles(ops, op.key) == 0 then before + {op.key} else before - {op.key}
    ensures ops[|ops| - 1].EndOfUsage? ==> ops[|ops| - 1].key !in Later(ops[..|ops| - 1], key)
  {
    var front, op := ops[..|ops| - 1], ops[|ops| - 1];
    LastEndInRange(front, key);
    forall k ensures k in Later(ops, key) <==> if k == op.key then Handles(ops, k) == 0 else k in Later(front, key) {
      IsLater(ops, key, k);
      IsLater(front, key, k);
    }
    IsLater(front, key, op.key);
  }

  lemma NoneLater<K>(ops: seq<Op<K>>, key: K)
    requires ops != [] && ops[|ops| - 1] == EndOfUsage(key)
    ensures Later(ops, key) == {}
  {
    forall k ensures k !in Later(ops, key) {
      IsLater(ops, key, k);
      LastEndInRange(ops, k);
    }
  }

  lemma CrowdedAfter<K>(ops: seq<Op<K>>, key: K, capacity: nat)
    requires ops != [] && LastEnd(ops, key) == LastEnd(ops[..|ops| - 1], key) < |ops|
    ensures NeverCrowdedOut(ops, key, capacity) <==>
            NeverCrowdedOut(ops[..|ops| - 1], key, capacity) && |Later(ops, key)| < capacity
  {
    hide Later, LastEnd;
    var front := ops[..|ops| - 1];
    assert ops[..|ops|] == ops;
    forall i | 0 <= i <= |front| ensures ops[..i] == front[..i] {}
    if NeverCrowdedOut(ops, key, capacity) {
      forall i | 0 <= i <= |front| && LastEnd(front, key) < i ensures |Later(front[..i], key)| < capacity {
        assert |Later(ops[..i], key)| < capacity;
      }
    }
  }

  lemma JustReleased<K>(ops: seq<Op<K>>, key: K, capacity: nat)
    requires ops != [] && ops[|ops| - 1] == EndOfUsage(key)
    ensures NeverCrowdedOut(ops, key, capacity) <==> capacity > 0
  {
    NoneLater(ops, key);
    assert ops[..|ops|] == ops;
    if NeverCrowdedOut(ops, key, capacity) { assert |Later(ops[..|ops|], key)| < capacity; }
  }

  /** One more operation: another key stays if it is not crowded out now; the operation's own has just been released. */
  lemma KeptAfter<K>(ops: seq<Op<K>>, key: K, capacity: nat)
    requires ops != []
    ensures var front, op := ops[..|ops| - 1], ops[|ops| - 1];
      if key != op.key then Kept(ops, key, capacity) <==> Kept(front, key, capacity) && |Later(ops, key)| < capacity
      else if op.EndOfUsage? then Kept(ops, key, capacity) <==> Handles(ops, key) == 0 && capacity > 0
      else Handles(front, key) >= 0 ==> !Kept(ops, key, capacity)
  {
    hide Later, NeverCrowdedOut;
    var op := ops[|ops| - 1];
    LastEndInRange(ops, key);
    if key == op.key {
      if op.EndOfUsage? { JustReleased(ops, key, capacity); }
    } else {
      CrowdedAfter(ops, key, capacity);
    }
  }

  lemma KeysCons<K>(x: K, s: seq<K>)
    ensures Keys([x] + s) == {x} + Keys(s)
  {}

  lemma {:induction false} WithoutInFront<K>(s: seq<K>, key: K, q: nat) returns (p: nat)
    requires q < |Without(s, key)|
    ensures p < |s| && s[p] == Without(s, key)[q]
    ensures Keys(Without(s, key)[..q]) == Keys(s[..p]) - {key}
  {
    if s[0] == key {
      p := WithoutInFront(s[1..], key, q);
      assert s[..p + 1] == [key] + s[1..][..p];
      KeysCons(key, s[1..][..p]);
      p := p + 1;
    } else if q == 0 {
      p := 0;
    } else {
      p := WithoutInFront(s[1..], key, q - 1);
      assert s[..p + 1] == [s[0]] + s[1..][..p];
      assert Without(s, key)[..q] == [s[0]] + Without(s[1..], key)[..q - 1];
      KeysCons(s[0], s[1..][..p]);
      KeysCons(s[0], Without(s[1..], key)[..q - 1]);
      p := p + 1;
    }
  }

  lemma RetrieveInFront<K>(ops: seq<Op<K>>, s: seq<K>)
    requires ops != [] && ops[|ops| - 1].Retrieve? && Handles(ops[..|ops| - 1], ops[|ops| - 1].key) >= 0
    requires InFront(ops[..|ops| - 1], s)
    ensures InFront(ops, Without(s, ops[|ops| - 1].key))
  {
    var front, key := ops[..|ops| - 1], ops[|ops| - 1].key;
    var s' := Without(s, key);
    forall q | 0 <= q < |s'| ensures Later(ops, s'[q]) == Keys(s'[..q]) {
      var p := WithoutInFront(s, key, q);
      assert s'[q] in s';
      LaterAfter(ops, s'[q]);
    }
  }

  /** After an end of usage, the keys in front of another one are those before, and the one released, if it is. */
  lemma ReleaseBehind<K>(ops: seq<Op<K>>, s: seq<K>, p: nat)
    requires ops != [] && ops[|ops| - 1].EndOfUsage? && Handles(ops, ops[|ops| - 1].key) >= 0
    requires InFront(ops[..|ops| - 1], s) && ops[|ops| - 1].key !in s && p < |s|
    ensures var key := ops[|ops| - 1].key;
      Later(ops, s[p]) == if Handles(ops, key) == 0 then Keys([key] + s[..p]) else Keys(s[..p])
  {
    hide Later, Keys, LastEnd;
    LaterAfter(ops, s[p]);
    NotAmong(s[..p], ops[|ops| - 1].key);
    KeysCons(ops[|ops| - 1].key, s[..p]);
  }

  lemma ReleaseInFront<K>(ops: seq<Op<K>>, s: seq<K>, n: int)
    requires ops != [] && ops[|ops| - 1].EndOfUsage? && Handles(ops, ops[|ops| - 1].key) >= 0
    requires InFront(ops[..|ops| - 1], s) && ops[|ops| - 1].key !in s
    ensures InFront(ops, if Handles(ops, ops[|ops| - 1].key) == 0 then [ops[|ops| - 1].key] + Take(s, n) else s)
  {
    hide Later, Keys, LastEnd, Handles;
    var key := ops[|ops| - 1].key;
    forall p | 0 <= p < |s|
      ensures Later(ops, s[p]) == if Handles(ops, key) == 0 then Keys([key] + s[..p]) else Keys(s[..p])
    {
      ReleaseBehind(ops, s, p);
    }
    if Handles(ops, key) == 0 {
      var s' := [key] + Take(s, n);
      NoneLater(ops, key);
      NotAmong([], key);
      forall q | 0 < q < |s'| ensures Later(ops, s'[q]) == Keys(s'[..q]) {
        assert s'[..q] == [key] + s[..q - 1];
      }
    }
  }

  lemma NotAmong<K>(s: seq<K>, key: K)
    requires key !in s
    ensures Keys(s) - {key} == Keys(s)
    ensures s == [] ==> Keys(s) == {}
  {}

  /** The history holds the keys that have never been crowded out, and in front of each those released later. */
  ghost predicate Exact<K(!new)>(ops: seq<Op<K>>, s: seq<K>, capacity: nat)
  {
    InFront(ops, s) && forall key :: key in s <==> Kept(ops, key, capacity)
  }

  lemma RetrieveExact<K(!new)>(ops: seq<Op<K>>, s: seq<K>, capacity: nat)
    requires ops != [] && ops[|ops| - 1].Retrieve? && Handles(ops[..|ops| - 1], ops[|ops| - 1].key) >= 0
    requires Exact(ops[..|ops| - 1], s, capacity)
    ensures Exact(ops, Without(s, ops[|ops| - 1].key), capacity)
  {
    hide Later, NeverCrowdedOut, InFront;
    var front, op := ops[..|ops| - 1], ops[|ops| - 1];
    RetrieveInFront(ops, s);
    forall key ensures key in Without(s, op.key) <==> Kept(ops, key, capacity) {
      KeptAfter(ops, key, capacity);
      if key != op.key && Kept(front, key, capacity) {
        LaterAfter(ops, key);
        NowNotCrowded(front, key, capacity);
        FewerOf(Later(front, key), Later(ops, key));
      }
    }
  }

  lemma NowNotCrowded<K>(ops: seq<Op<K>>, key: K, capacity: nat)
    requires NeverCrowdedOut(ops, key, capacity)
    ensures |Later(ops, key)| < capacity
  {
    LastEndInRange(ops, key);
    assert ops[..|ops|] == ops;
    assert |Later(ops[..|ops|], key)| < capacity;
  }

  lemma FewerOf<K>(a: set<K>, b: set<K>)
    ensures b <= a ==> |b| <= |a|
  {
    if b <= a { assert a == b + (a - b); }
  }

  lemma ReleaseExact<K(!new)>(ops: seq<Op<K>>, s: seq<K>, capacity: nat)
    requires ops != [] && ops[|ops| - 1].EndOfUsage? && Handles(ops, ops[|ops| - 1].key) >= 0
    requires Exact(ops[..|ops| - 1], s, capacity) && Distinct(s) && ops[|ops| - 1].key !in s
    ensures var op := ops[|ops| - 1];
      var last := Handles(ops, op.key) == 0 && capacity > 0;
      Exact(ops, if last then [op.key] + Take(s, capacity - 1) else s, capacity)
  {
    hide Kept, InFront, Take;
    var front, op := ops[..|ops| - 1], ops[|ops| - 1];
    if capacity > 0 { ReleaseInFront(ops, s, capacity - 1); } else { NoneKept(front, s, capacity); }
    var s' := if Handles(ops, op.key) == 0 && capacity > 0 then [op.key] + Take(s, capacity - 1) else s;
    forall key ensures key in s' <==> Kept(ops, key, capacity) { ReleaseKeeps(ops, s, key, capacity); }
  }

  lemma ReleaseKeeps<K>(ops: seq<Op<K>>, s: seq<K>, key: K, capacity: nat)
    requires ops != [] && ops[|ops| - 1].EndOfUsage? && Handles(ops, ops[|ops| - 1].key) >= 0
    requires InFront(ops[..|ops| - 1], s) && Distinct(s) && ops[|ops| - 1].key !in s
    requires key in s <==> Kept(ops[..|ops| - 1], key, capacity)
    ensures var op := ops[|ops| - 1];
      var s' := if Handles(ops, op.key) == 0 && capacity > 0 then [op.key] + Take(s, capacity - 1) else s;
      key in s' <==> Kept(ops, key, capacity)
  {
    hide Later, NeverCrowdedOut, InFront;
    var front, op := ops[..|ops| - 1], ops[|ops| - 1];
    KeptAfter(ops, key, capacity);
    if key != op.key && Kept(front, key, capacity) {
      NowNotCrowded(front, key, capacity);
      LaterAfter(ops, key);
      PlaceInHistory(front, s, key, capacity - 1);
    }
  }

  lemma NoneKept<K(!new)>(ops: seq<Op<K>>, s: seq<K>, capacity: nat)
    requires capacity == 0 && forall key :: key in s ==> Kept(ops, key, capacity)
    ensures s == [] && forall ops' :: InFront<K>(ops', s)
  {
    if s != [] {
      assert s[0] in s;
      NowNotCrowded(ops, s[0], capacity);
    }
  }

  lemma PlaceInHistory<K>(ops: seq<Op<K>>, s: seq<K>, key: K, n: int)
    requires InFront(ops, s) && Distinct(s) && key in s
    ensures key in Take(s, n) <==> |Later(ops, key)| < n
  {
    hide Later;
    var p :| 0 <= p < |s| && s[p] == key;
    KeysCount(s[..p]);
  }

  /** Exactly which keys the history holds, and in which order, after any operations. */
  lemma {:induction false} HistoryIsExact<K(!new)>(ops: seq<Op<K>>, capacity: nat)
    requires AllAllowed(Cache(multiset{}, []), ops, capacity)
    ensures Exact(ops, ApplyAll(Cache(multiset{}, []), ops, capacity).history, capacity)
  {
    hide Exact;
    if ops == [] {
      NothingKept<K>(capacity);
    } else {
      var front, op := ops[..|ops| - 1], ops[|ops| - 1];
      HistoryIsExact(front, capacity);
      AlwaysConsistent(front, capacity);
      LiveIsHandles(front, capacity, op.key);
      NotInHistory(ApplyAll(Cache(multiset{}, []), front, capacity), op, capacity);
      if op.Retrieve? {
        RetrieveExact(ops, ApplyAll(Cache(multiset{}, []), front, capacity).history, capacity);
      } else {
        ReleaseExact(ops, ApplyAll(Cache(multiset{}, []), front, capacity).history, capacity);
      }
    }
  }

  lemma NotInHistory<K>(c: Cache<K>, op: Op<K>, capacity: nat)
    requires Consistent(c, capacity) && Allowed(c, op)
    ensures op.EndOfUsage? ==> op.key !in c.history
    ensures Distinct(c.history)
  {}

  lemma NothingKept<K(!new)>(capacity: nat)
    ensures Exact<K>([], [], capacity)
  {}

  /**
   It has to be so at every moment since the release: here nothing is released after key 0 that is without a
   handle in the end, but the key has been crowded out in between.
   */
  lemma OnceCrowdedOut()
    ensures var ops := [Retrieve(0), EndOfUsage(0), Retrieve(1), EndOfUsage(1), Retrieve(1)];
      && AllAllowed(Cache(multiset{}, []), ops, 1) && 0 !in ApplyAll(Cache(multiset{}, []), ops, 1).history
      && Handles(ops, 0) == 0 && LastEnd(ops, 0) >= 0 && Later(ops, 0) == {}
  {
    hide Later, ApplyAll, AllAllowed, Handles, LastEnd;
    var o1 := [Retrieve(0)];
    var o2, o3 := o1 + [EndOfUsage(0)], o1 + [EndOfUsage(0)] + [Retrieve(1)];
    var o4, o5 := o3 + [EndOfUsage(1)], o3 + [EndOfUsage(1)] + [Retrieve(1)];
    NoneApplied();
    OneMoreApplied([], Retrieve(0));
    assert [] + [Retrieve(0)] == o1;
    OneMoreApplied(o1, EndOfUsage(0));
    OneMoreApplied(o2, Retrieve(1));
    OneMoreApplied(o3, EndOfUsage(1));
    OneMoreApplied(o4, Retrieve(1));
    assert ApplyAll(Cache(multiset{}, []), o2, 1) == Cache(multiset{}, [0]);
    assert ApplyAll(Cache(multiset{}, []), o4, 1) == Cache(multiset{}, [1]);
    forall k ensures k !in Later(o5, 0) { IsLater(o5, 0, k); }
    assert o5 == [Retrieve(0), EndOfUsage(0), Retrieve(1), EndOfUsage(1), Retrieve(1)];
  }

  lemma NoneApplied()
    ensures ApplyAll<int>(Cache(multiset{}, []), [], 1) == Cache(multiset{}, [])
    ensures AllAllowed<int>(Cache(multiset{}, []), [], 1)
    ensures forall key: int :: Handles([], key) == 0 && LastEnd([], key) == -1
  {}

  lemma OneMoreApplied(ops: seq<Op<int>>, op: Op<int>)
    ensures var c, ops' := ApplyAll(Cache(multiset{}, []), ops, 1), ops + [op];
      && ApplyAll(Cache(multiset{}, []), ops', 1) == Apply(c, op, 1)
      && (AllAllowed(Cache(multiset{}, []), ops', 1) <==> AllAllowed(Cache(multiset{}, []), ops, 1) && Allowed(c, op))
      && (forall key :: Handles(ops', key) ==
            Handles(ops, key) + if op == Retrieve(key) then 1 else if op == EndOfUsage(key) then -1 else 0)
      && (forall key :: LastEnd(ops', key) == if op == EndOfUsage(key) then |ops| else LastEnd(ops, key))
  {
    assert (ops + [op])[..|ops + [op]| - 1] == ops;
  }

  // ----- the cache in place

  /** A record of the storage map; `inHistory` is whether its history iterator is not the end. */
  datatype Record = Record(refCounter: nat, inHistory: bool)

  class LruCache<K(==, !new)> {
    const capacity: nat
    var storage: map<K, Record>
    var history: seq<K>

    ghost var live: multiset<K>      // the handles that exist

    ghost function Contents(): Cache<K>
      reads this
    {
      Cache(live, history)
    }

    ghost predicate RecordOk(key: K)
      reads this
    {
      && (key in storage <==> key in live || key in history)
      && (key in storage ==>
            storage[key].refCounter == live[key] && (storage[key].inHistory <==> key in history))
    }

    /** A record's count is the number of its handles, and it is in the history, once, just when that is 0. */
    ghost predicate Valid()
      reads this
    {
      Consistent(Contents(), capacity) && forall key :: RecordOk(key)
    }

    constructor (capacity: nat)
      ensures Valid() && Contents() == Cache(multiset{}, []) && this.capacity == capacity
    {
      this.capacity, storage, history, live := capacity, map[], [], multiset{};
    }

    /** Gives out a handle; a new value is needed just when the key has no handle and is not in the history. */
    method RetrieveSerial(key: K) returns (isNewValueNeeded: bool)
      requires Valid()
      modifies this
      ensures Valid() && Contents() == Apply(old(Contents()), Retrieve(key), capacity)
      ensures isNewValueNeeded <==> key !in old(live) && key !in old(history)
      ensures key !in old(history) ==> history == old(history)
      ensures forall i :: 0 <= i < |old(history)| && old(history)[i] == key ==>
                history == old(history)[..i] + old(history)[i + 1..]
      ensures storage.Keys == old(storage.Keys) + {key}
    {
      assert RecordOk(key);
      ApplyKeeps(Contents(), Retrieve(key), capacity);
      WithoutThe(history, key);
      isNewValueNeeded := false;
      if key !in storage {
        storage := storage[key := Record(0, false)];
        isNewValueNeeded := true;
      } else if storage[key].inHistory {
        history := Without(history, key);
        storage := storage[key := storage[key].(inHistory := false)];
      }
      storage := storage[key := storage[key].(refCounter := storage[key].refCounter + 1)];
      live := live + multiset{key};
      forall k ensures RecordOk(k) { assert old(RecordOk(k)); }
    }

    /** Takes a handle back; with the last one the key goes to the history, and the oldest there may have to go. */
    method SignalEndOfUsageSerial(key: K)
      requires Valid() && key in live
      modifies this
      ensures Valid() && Contents() == Apply(old(Contents()), EndOfUsage(key), capacity)
      ensures old(live)[key] > 1 || capacity == 0 ==> history == old(history)
      ensures old(live)[key] == 1 && capacity > 0 ==>
        && 0 < |history| == (if |old(history)| < capacity then |old(history)| + 1 else capacity)
        && history[0] == key && history[1..] <= old(history)
    {
      assert RecordOk(key);
      ApplyKeeps(Contents(), EndOfUsage(key), capacity);
      storage := storage[key := storage[key].(refCounter := storage[key].refCounter - 1)];
      live := live - multiset{key};
      if storage[key].refCounter == 0 {
        if |history| >= capacity {
          if capacity == 0 {
            storage := storage - {key};
            forall k ensures RecordOk(k) { assert old(RecordOk(k)); }
            return;
          }
          forall k | k in history ensures k in storage { assert old(RecordOk(k)); }
          EvictOldest(key);
        }
        history := [key] + history;
        storage := storage[key := storage[key].(inHistory := true)];
      }
      forall k ensures RecordOk(k) { assert old(RecordOk(k)); }
    }

    /** Evicts what is too much for one more key: the oldest, as the history is never longer than its capacity. */
    method EvictOldest(key: K)
      requires capacity > 0 && |history| == capacity && Distinct(history) && key !in history
      requires forall k :: k in history ==> k in storage
      modifies `storage, `history
      ensures history == old(history)[..capacity - 1]
      ensures storage == old(storage) - {old(history)[capacity - 1]}
    {
      var numberOfElementsToEvict := 1 + |history| - capacity;
      var i := 0;
      while i < numberOfElementsToEvict
        invariant i <= numberOfElementsToEvict == 1
        invariant if i == 0 then history == old(history) && storage == old(storage)
          else history == old(history)[..capacity - 1] && storage == old(storage) - {old(history)[capacity - 1]}
      {
        var toEvict := history[|history| - 1];
        history := history[..|history| - 1];
        storage := storage - {toEvict};
        i := i + 1;
      }
    }

    /** A batch is handled in the order of its list. */
    method HandleOperations(ops: seq<Op<K>>)
      requires Valid() && AllAllowed(Contents(), ops, capacity)
      modifies this
      ensures Valid() && Contents() == ApplyAll(old(Contents()), ops, capacity)
    {
      hide Consistent, AllAllowed, ApplyAll, Apply, RecordOk;
      var i := 0;
      NoneYet(Contents(), ops);
      while i < |ops|
        invariant i <= |ops| && Valid() && Contents() == ApplyAll(old(Contents()), ops[..i], capacity)
      {
        AllowedAt(old(Contents()), ops, i);
        OneMore(old(Contents()), ops, i);
        match ops[i] {
          case Retrieve(key) => var _ := RetrieveSerial(key);
          case EndOfUsage(key) => SignalEndOfUsageSerial(key);
        }
        i := i + 1;
      }
      assert ops[..i] == ops;
    }

    lemma NoneYet(c: Cache<K>, ops: seq<Op<K>>)
      ensures ApplyAll(c, ops[..0], capacity) == c
    {}

    lemma OneMore(c: Cache<K>, ops: seq<Op<K>>, i: nat)
      requires i < |ops|
      ensures ApplyAll(c, ops[..i + 1], capacity) == Apply(ApplyAll(c, ops[..i], capacity), ops[i], capacity)
    {
      assert ops[..i + 1][..i] == ops[..i];
    }

    lemma {:induction false} AllowedAt(c: Cache<K>, ops: seq<Op<K>>, i: nat)
      requires AllAllowed(c, ops, capacity) && i < |ops|
      ensures Allowed(ApplyAll(c, ops[..i], capacity), ops[i])
      decreases ops
    {
      if i < |ops| - 1 {
        AllowedAt(c, ops[..|ops| - 1], i);
        assert ops[..|ops| - 1][..i] == ops[..i];
      }
    }
  }
}
