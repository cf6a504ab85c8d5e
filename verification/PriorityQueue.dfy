/**
 The batch handler of the concurrent priority queue.

 Threads hand their operations to an aggregator, and one of them handles a whole batch: all the
 operations of a batch are under way at the same time, so any order of them is as good as another.
 Between batches `data` is a heap.  Within one, only `data[..mark]` is; what has been pushed since
 lies unsorted behind it, and a pop may take the last of those although others there rank higher.

 The handler is therefore proved against a sequential order that it chooses: a push takes effect not
 when the handler appends its element, but when the element is popped, or moved into the heap.
 */
module PriorityQueue {
  import opened Sequences

  datatype Op<T> =
    | Push(x: T, gotMemory: bool)   // gotMemory: appending the element does not throw
    | Pop

  datatype Status<T> = Wait | Pushed | PushFailed | Popped(x: T) | FoundEmpty

  /** Operation `id` of the batch takes effect, with its final status. */
  datatype Effect<T> = Effect(id: nat, status: Status<T>)

  ghost predicate StrictWeakOrder<T(!new)>(less: (T, T) -> bool)
  {
    && (forall a, b :: less(a, b) ==> !less(b, a))
    && (forall a, b, c :: !less(a, b) && !less(b, c) ==> !less(a, c))
  }

  // ----- the sequential priority queue: a bag of elements

  /** Nothing in the bag ranks higher than `x`. */
  ghost predicate Top<T(!new)>(less: (T, T) -> bool, x: T, bag: multiset<T>)
  {
    forall y :: y in bag ==> !less(x, y)
  }

  /** What a sequential priority queue with these contents may answer. */
  ghost predicate Allowed<T(!new)>(less: (T, T) -> bool, op: Op<T>, status: Status<T>, bag: multiset<T>)
  {
    match op
    case Push(_, gotMemory) => status == (if gotMemory then Pushed else PushFailed)
    case Pop =>
      || (status == FoundEmpty && bag == multiset{})
      || (status.Popped? && status.x in bag && Top(less, status.x, bag))
  }

  /** The contents after one operation. */
  function Change<T>(op: Op<T>, status: Status<T>, bag: multiset<T>): multiset<T>
  {
    if op.Push? && status == Pushed then bag + multiset{op.x}
    else if status.Popped? then bag - multiset{status.x}
    else bag
  }

  /** The contents after the effects, in order. */
  function After<T>(ops: seq<Op<T>>, log: seq<Effect<T>>, bag: multiset<T>): multiset<T>
  {
    if log == [] then bag
    else
      var last, before := log[|log| - 1], After(ops, log[..|log| - 1], bag);
      if last.id < |ops| then Change(ops[last.id], last.status, before) else before
  }

  /** Each operation, in this order, answers as a sequential priority queue may. */
  ghost predicate Legal<T(!new)>(less: (T, T) -> bool, ops: seq<Op<T>>, log: seq<Effect<T>>, bag: multiset<T>)
  {
    log == [] ||
    (var last, front := log[|log| - 1], log[..|log| - 1];
     && Legal(less, ops, front, bag) && last.id < |ops|
     && Allowed(less, ops[last.id], last.status, After(ops, front, bag)))
  }

  function Ids<T>(log: seq<Effect<T>>): seq<nat>
  {
    seq(|log|, k requires 0 <= k < |log| => log[k].id)
  }

  function PushedIn<T>(op: Op<T>, status: Status<T>): multiset<T>
  {
    if op.Push? && status == Pushed then multiset{op.x} else multiset{}
  }

  function PoppedIn<T>(status: Status<T>): multiset<T>
  {
    if status.Popped? then multiset{status.x} else multiset{}
  }

  function AllPushed<T>(ops: seq<Op<T>>, log: seq<Effect<T>>): multiset<T>
  {
    if log == [] then multiset{}
    else
      var last := log[|log| - 1];
      AllPushed(ops, log[..|log| - 1]) + if last.id < |ops| then PushedIn(ops[last.id], last.status) else multiset{}
  }

  function AllPopped<T>(log: seq<Effect<T>>): multiset<T>
  {
    if log == [] then multiset{} else AllPopped(log[..|log| - 1]) + PoppedIn(log[|log| - 1].status)
  }

  lemma ChangeConserves<T(!new)>(less: (T, T) -> bool, op: Op<T>, status: Status<T>, bag: multiset<T>)
    requires Allowed(less, op, status, bag)
    ensures Change(op, status, bag) + PoppedIn(status) == bag + PushedIn(op, status)
  {}

  lemma AddUp<T>(a: multiset<T>, popped: multiset<T>, b: multiset<T>, pushed: multiset<T>,
                 a': multiset<T>, p: multiset<T>, q: multiset<T>)
    requires a + popped == b + pushed && a' + p == a + q
    ensures a' + (popped + p) == b + (pushed + q)
  {
    calc {
      a' + (popped + p);
      (a' + p) + popped;
      (a + q) + popped;
      (a + popped) + q;
      (b + pushed) + q;
      b + (pushed + q);
    }
  }

  /** No element is lost, made up or popped twice. */
  lemma {:induction false} ElementsAreConserved<T(!new)>(less: (T, T) -> bool, ops: seq<Op<T>>, log: seq<Effect<T>>,
                                                         bag: multiset<T>)
    requires Legal(less, ops, log, bag)
    ensures After(ops, log, bag) + AllPopped(log) == bag + AllPushed(ops, log)
  {
    if log != [] {
      var last, front := log[|log| - 1], log[..|log| - 1];
      ElementsAreConserved(less, ops, front, bag);
      ChangeConserves(less, ops[last.id], last.status, After(ops, front, bag));
      AddUp(After(ops, front, bag), AllPopped(front), bag, AllPushed(ops, front),
            After(ops, log, bag), PoppedIn(last.status), PushedIn(ops[last.id], last.status));
    }
  }

  lemma {:induction false} LegalAt<T(!new)>(less: (T, T) -> bool, ops: seq<Op<T>>, log: seq<Effect<T>>,
                                            bag: multiset<T>, k: nat)
    requires Legal(less, ops, log, bag) && k < |log|
    ensures log[k].id < |ops| && Allowed(less, ops[log[k].id], log[k].status, After(ops, log[..k], bag))
  {
    if k < |log| - 1 {
      LegalAt(less, ops, log[..|log| - 1], bag, k);
      assert log[..|log| - 1][..k] == log[..k];
    }
  }

  lemma {:induction false} NothingAppears<T>(ops: seq<Op<T>>, log: seq<Effect<T>>, bag: multiset<T>, i: nat)
    requires i <= |log| && forall k :: i <= k < |log| ==> log[k].status != Pushed
    ensures After(ops, log, bag) <= After(ops, log[..i], bag)
  {
    if i < |log| {
      var front := log[..|log| - 1];
      NothingAppears(ops, front, bag, i);
      assert front[..i] == log[..i];
    } else {
      assert log[..i] == log;
    }
  }

  /** Of two pops with no push between them, the earlier returns an element that the later one's does not outrank. */
  lemma PopsDescend<T(!new)>(less: (T, T) -> bool, ops: seq<Op<T>>, log: seq<Effect<T>>, bag: multiset<T>, i: nat, j: nat)
    requires Legal(less, ops, log, bag) && i < j < |log|
    requires log[i].status.Popped? && log[j].status.Popped? && forall k :: i < k < j ==> log[k].status != Pushed
    ensures !less(log[i].status.x, log[j].status.x)
  {
    hide Legal, After;
    LegalAt(less, ops, log, bag, i);
    LegalAt(less, ops, log, bag, j);
    assert log[..j][..i] == log[..i];
    NothingAppears(ops, log[..j], bag, i);
  }

  /** One more effect. */
  lemma Extend<T(!new)>(less: (T, T) -> bool, ops: seq<Op<T>>, log: seq<Effect<T>>, bag: multiset<T>, e: Effect<T>)
    requires Legal(less, ops, log, bag) && e.id < |ops|
    requires Allowed(less, ops[e.id], e.status, After(ops, log, bag))
    ensures Legal(less, ops, log + [e], bag)
    ensures After(ops, log + [e], bag) == Change(ops[e.id], e.status, After(ops, log, bag))
    ensures multiset(Ids(log + [e])) == multiset(Ids(log)) + multiset{e.id}
  {
    assert (log + [e])[..|log|] == log;
    assert Ids(log + [e]) == Ids(log) + [e.id];
  }

  // ----- heaps

  function Parent(k: int): int
  {
    (k - 1) / 2
  }

  lemma ParentIsAbove(k: nat)
    requires k > 0
    ensures 0 <= Parent(k) < k
  {}

  /** The element ranks no higher than its parent. */
  ghost predicate InOrder<T>(less: (T, T) -> bool, d: seq<T>, k: int)
    requires 1 <= k < |d|
  {
    !less(d[Parent(k)], d[k])
  }

  ghost predicate Heap<T>(less: (T, T) -> bool, d: seq<T>, n: nat)
  {
    n <= |d| && forall k :: 1 <= k < n ==> InOrder(less, d, k)
  }

  lemma {:induction false} RootRanksHighest<T(!new)>(less: (T, T) -> bool, d: seq<T>, n: nat, k: nat)
    requires StrictWeakOrder(less) && Heap(less, d, n) && k < n
    ensures !less(d[0], d[k])
  {
    if k > 0 {
      RootRanksHighest(less, d, n, Parent(k));
      assert InOrder(less, d, k);
    }
  }

  /** The root of a heap is on top of its elements. */
  lemma RootIsTop<T(!new)>(less: (T, T) -> bool, d: seq<T>, n: nat)
    requires StrictWeakOrder(less) && Heap(less, d, n) && n > 0
    ensures d[0] in multiset(d[..n]) && Top(less, d[0], multiset(d[..n]))
  {
    assert d[..n][0] == d[0];
    forall y | y in multiset(d[..n]) ensures !less(d[0], y) {
      var k :| 0 <= k < n && d[..n][k] == y;
      RootRanksHighest(less, d, n, k);
    }
  }

  /** What ranks higher than the root, if there is one, is on top once it is added. */
  lemma HigherIsTop<T(!new)>(less: (T, T) -> bool, d: seq<T>, n: nat, x: T)
    requires StrictWeakOrder(less) && Heap(less, d, n)
    requires n > 0 ==> less(d[0], x)
    ensures Top(less, x, multiset(d[..n]) + multiset{x})
  {
    forall y | y in multiset(d[..n]) + multiset{x} ensures !less(x, y) {
      if y != x {
        var k :| 0 <= k < n && d[..n][k] == y;
        RootRanksHighest(less, d, n, k);
        assert !less(x, d[0]);
      }
    }
  }

  /**
   In order but for the element at `c`: that may rank higher than its parent (when `up`) or lower than
   its children (otherwise); its children rank no higher than its parent.
   */
  ghost predicate HeapBut<T>(less: (T, T) -> bool, d: seq<T>, n: nat, c: nat, up: bool)
  {
    && c < n <= |d|
    && (forall k :: 1 <= k < n && (if up then k != c else Parent(k) != c) ==> InOrder(less, d, k))
    && (forall k :: 1 <= k < n && Parent(k) == c && c > 0 ==> !less(d[Parent(c)], d[k]))
  }

  /** Exchanging the element with its parent moves the exception up. */
  lemma MoveUp<T(!new)>(less: (T, T) -> bool, d: seq<T>, n: nat, c: nat)
    requires StrictWeakOrder(less) && HeapBut(less, d, n, c, true) && c > 0 && less(d[Parent(c)], d[c])
    ensures var p := Parent(c); HeapBut(less, d[c := d[p]][p := d[c]], n, p, true)
  {
    var p := Parent(c);
    var d' := d[c := d[p]][p := d[c]];
    forall k | 1 <= k < n && k != p ensures InOrder(less, d', k) {
      if k != c { assert InOrder(less, d, k); }
      if Parent(k) == p && k != c {
        assert !less(d[p], d[k]) && !less(d[c], d[p]);
      }
    }
    forall k | 1 <= k < n && Parent(k) == p && p > 0 ensures !less(d'[Parent(p)], d'[k]) {
      assert InOrder(less, d, p);
      if k != c { assert InOrder(less, d, k); }
    }
  }

  /** Exchanging the element with a child that ranks no lower than the other child moves the exception down. */
  lemma MoveDown<T(!new)>(less: (T, T) -> bool, d: seq<T>, n: nat, c: nat, t: nat)
    requires StrictWeakOrder(less) && HeapBut(less, d, n, c, false)
    requires c < t < n && Parent(t) == c && !less(d[t], d[c])
    requires forall k :: 1 <= k < n && Parent(k) == c ==> !less(d[t], d[k])
    ensures HeapBut(less, d[c := d[t]][t := d[c]], n, t, false)
  {
    var d' := d[c := d[t]][t := d[c]];
    forall k | 1 <= k < n && Parent(k) != t ensures InOrder(less, d', k) {
      if Parent(k) != c { assert InOrder(less, d, k); }
    }
    forall k | 1 <= k < n && Parent(k) == t ensures !less(d'[Parent(t)], d'[k]) {
      assert InOrder(less, d, k);
    }
  }

  /**
   In the course of a sift: the first `n` of `d` hold these elements, in order but for the one at `c`;
   those behind are `rest`.
   */
  ghost predicate Sifting<T>(less: (T, T) -> bool, d: seq<T>, n: nat, c: nat, up: bool, held: multiset<T>, rest: seq<T>)
  {
    HeapBut(less, d, n, c, up) && multiset(d[..n]) == held && d[n..] == rest
  }

  lemma SwapKeeps<T>(d: seq<T>, n: nat, i: nat, j: nat)
    requires i < n <= |d| && j < n
    ensures multiset(d[i := d[j]][j := d[i]][..n]) == multiset(d[..n])
    ensures d[i := d[j]][j := d[i]][n..] == d[n..]
  {
    assert d[i := d[j]][j := d[i]][..n] == d[..n][i := d[j]][j := d[i]];
  }

  lemma SiftUp<T(!new)>(less: (T, T) -> bool, d: seq<T>, n: nat, c: nat, held: multiset<T>, rest: seq<T>)
    requires StrictWeakOrder(less) && Sifting(less, d, n, c, true, held, rest)
    requires c > 0 && less(d[Parent(c)], d[c])
    ensures var p := Parent(c); 0 <= p < c && Sifting(less, d[c := d[p]][p := d[c]], n, p, true, held, rest)
  {
    MoveUp(less, d, n, c);
    SwapKeeps(d, n, c, Parent(c));
  }

  /** The child to compare with, of the two or the one that there are. */
  predicate HigherChild<T>(less: (T, T) -> bool, d: seq<T>, n: nat, c: nat, t: nat)
  {
    && 2 * c + 1 < n <= |d|
    && t == if 2 * c + 2 < n && less(d[2 * c + 1], d[2 * c + 2]) then 2 * c + 2 else 2 * c + 1
  }

  /** No child ranks higher than the element at `c`. */
  ghost predicate AboveChildren<T>(less: (T, T) -> bool, d: seq<T>, n: nat, c: nat)
  {
    c < n <= |d| && forall k :: 1 <= k < n && Parent(k) == c ==> !less(d[c], d[k])
  }

  lemma SiftDown<T(!new)>(less: (T, T) -> bool, d: seq<T>, n: nat, c: nat, t: nat, held: multiset<T>, rest: seq<T>)
    requires StrictWeakOrder(less) && Sifting(less, d, n, c, false, held, rest) && HigherChild(less, d, n, c, t)
    ensures c < t < n
    ensures if less(d[t], d[c]) then AboveChildren(less, d, n, c)
      else Sifting(less, d[c := d[t]][t := d[c]], n, t, false, held, rest)
  {
    assert forall k :: 1 <= k < n && Parent(k) == c ==> k == 2 * c + 1 || k == 2 * c + 2;
    if !less(d[t], d[c]) {
      MoveDown(less, d, n, c, t);
      SwapKeeps(d, n, c, t);
    }
  }

  lemma SiftedUp<T>(less: (T, T) -> bool, d: seq<T>, n: nat, c: nat, held: multiset<T>, rest: seq<T>)
    requires Sifting(less, d, n, c, true, held, rest) && (c == 0 || !less(d[Parent(c)], d[c]))
    ensures n <= |d| && Heap(less, d, n) && multiset(d[..n]) == held && d[n..] == rest
  {}

  lemma SiftedDown<T>(less: (T, T) -> bool, d: seq<T>, n: nat, c: nat, held: multiset<T>, rest: seq<T>)
    requires Sifting(less, d, n, c, false, held, rest) && (AboveChildren(less, d, n, c) || 2 * c + 1 >= n)
    ensures n <= |d| && Heap(less, d, n) && multiset(d[..n]) == held && d[n..] == rest
  {}

  // ----- the effects of one batch

  /** The effects so far, from contents `bag0`, lead to `heap`, and `tail` is what `tailOps` have pushed since. */
  ghost predicate Chosen<T(!new)>(less: (T, T) -> bool, ops: seq<Op<T>>, log: seq<Effect<T>>, bag0: multiset<T>,
                                  heap: multiset<T>, tail: seq<T>, tailOps: seq<nat>)
  {
    && Legal(less, ops, log, bag0) && After(ops, log, bag0) == heap
    && |tailOps| == |tail|
    && forall k :: 0 <= k < |tail| ==> tailOps[k] < |ops| && ops[tailOps[k]] == Push(tail[k], true)
  }

  /** A push takes effect, and then a pop of its element. */
  lemma PushThenPop<T(!new)>(less: (T, T) -> bool, ops: seq<Op<T>>, log: seq<Effect<T>>, bag0: multiset<T>,
                             heap: multiset<T>, push: nat, pop: nat, x: T)
    requires Legal(less, ops, log, bag0) && After(ops, log, bag0) == heap
    requires push < |ops| && ops[push] == Push(x, true) && pop < |ops| && ops[pop] == Pop
    requires Top(less, x, heap + multiset{x})
    ensures var log' := log + [Effect(push, Pushed)] + [Effect(pop, Popped(x))];
      Legal(less, ops, log', bag0) && After(ops, log', bag0) == heap
  {
    Extend(less, ops, log, bag0, Effect(push, Pushed));
    Extend(less, ops, log + [Effect(push, Pushed)], bag0, Effect(pop, Popped(x)));
  }

  /** A pop of the top takes effect, and then a push. */
  lemma PopThenPush<T(!new)>(less: (T, T) -> bool, ops: seq<Op<T>>, log: seq<Effect<T>>, bag0: multiset<T>,
                             heap: multiset<T>, pop: nat, x: T, push: nat, y: T)
    requires Legal(less, ops, log, bag0) && After(ops, log, bag0) == heap
    requires pop < |ops| && ops[pop] == Pop && push < |ops| && ops[push] == Push(y, true)
    requires x in heap && Top(less, x, heap)
    ensures var log' := log + [Effect(pop, Popped(x))] + [Effect(push, Pushed)];
      Legal(less, ops, log', bag0) && After(ops, log', bag0) == heap - multiset{x} + multiset{y}
  {
    Extend(less, ops, log, bag0, Effect(pop, Popped(x)));
    Extend(less, ops, log + [Effect(pop, Popped(x))], bag0, Effect(push, Pushed));
  }

  /** The operations of the batch that have taken effect, in order, and those that pushed the elements behind the mark. */
  datatype Account<T> = Account(log: seq<Effect<T>>, tailOps: seq<nat>)

  function SettledIds<T>(a: Account<T>): multiset<nat>
  {
    multiset(Ids(a.log)) + multiset(a.tailOps)
  }

  /** Operation `id` is settled with a status; pushes behind the mark may take effect, and nothing else changes. */
  ghost predicate Settles<T>(a: Account<T>, a': Account<T>, id: nat, status: Status<T>)
  {
    && SettledIds(a') == SettledIds(a) + multiset{id}
    && (forall e :: e in a'.log ==> e in a.log || e == Effect(id, status) || (e.status == Pushed && e.id in a.tailOps))
    && (forall t :: t in a'.tailOps ==> t in a.tailOps || (t == id && status == Pushed))
  }

  /** The callers have been told what the account says, and callers whose operation is not settled wait. */
  ghost predicate Told<T>(a: Account<T>, results: seq<Status<T>>)
  {
    && (forall e :: e in a.log ==> e.id < |results| && results[e.id] == e.status && e.status != Wait)
    && (forall t :: t in a.tailOps ==> t < |results| && results[t] == Pushed)
  }

  lemma Tell<T>(a: Account<T>, a': Account<T>, id: nat, status: Status<T>, results: seq<Status<T>>)
    requires Told(a, results) && Settles(a, a', id, status)
    requires id < |results| && results[id] == Wait && status != Wait
    ensures Told(a', results[id := status])
  {
    var results' := results[id := status];
    forall e | e in a'.log ensures e.id < |results'| && results'[e.id] == e.status && e.status != Wait {
      if e in a.log { assert results[e.id] == e.status; }
    }
  }

  /** What holds within a batch that has begun with contents `bag0`: a heap, and behind it what has been pushed since. */
  ghost predicate LinearOn<T(!new)>(less: (T, T) -> bool, ops: seq<Op<T>>, bag0: multiset<T>,
                                    data: seq<T>, mark: nat, a: Account<T>)
  {
    && StrictWeakOrder(less) && mark <= |data| && Heap(less, data, mark)
    && Chosen(less, ops, a.log, bag0, multiset(data[..mark]), data[mark..], a.tailOps)
  }

  lemma TailOp<T(!new)>(less: (T, T) -> bool, ops: seq<Op<T>>, bag0: multiset<T>, data: seq<T>, mark: nat,
                        a: Account<T>, k: nat)
    requires LinearOn(less, ops, bag0, data, mark, a) && mark <= k < |data|
    ensures |a.tailOps| == |data| - mark
    ensures a.tailOps[k - mark] < |ops| && ops[a.tailOps[k - mark]] == Push(data[k], true)
  {
    assert data[mark..][k - mark] == data[k];
  }

  /** Pushes and pops settled in the order they are listed; the last push has left the tail, or took its first place. */
  lemma TailShrinks<T(!new)>(a: Account<T>, a': Account<T>, first: Effect<T>, second: Effect<T>,
                             id: nat, status: Status<T>, push: nat)
    requires a'.log == a.log + [first] + [second]
    requires (first, second) == (Effect(push, Pushed), Effect(id, status))
      || (first, second) == (Effect(id, status), Effect(push, Pushed))
    requires multiset(a'.tailOps) + multiset{push} == multiset(a.tailOps)
    ensures Settles(a, a', id, status)
  {
    hide SettledIds;
    TailShrinksIds(a, a', first, second, push, id);
    assert push in multiset(a.tailOps);
    forall t | t in a'.tailOps ensures t in a.tailOps {
      assert t in multiset(a'.tailOps) && t in multiset(a.tailOps);
    }
  }

  lemma TailShrinksIds<T>(a: Account<T>, a': Account<T>, first: Effect<T>, second: Effect<T>, push: nat, id: nat)
    requires a'.log == a.log + [first] + [second] && multiset{first.id, second.id} == multiset{push, id}
    requires multiset(a'.tailOps) + multiset{push} == multiset(a.tailOps)
    ensures SettledIds(a') == SettledIds(a) + multiset{id}
  {
    assert Ids(a'.log) == Ids(a.log) + [first.id] + [second.id];
  }

  lemma PopBackKeeps<T(!new)>(less: (T, T) -> bool, ops: seq<Op<T>>, bag0: multiset<T>, data: seq<T>, mark: nat,
                              a: Account<T>, id: nat) returns (a': Account<T>)
    requires LinearOn(less, ops, bag0, data, mark, a) && mark < |data| && less(data[0], data[|data| - 1])
    requires id < |ops| && ops[id] == Pop
    ensures LinearOn(less, ops, bag0, data[..|data| - 1], mark, a')
    ensures Settles(a, a', id, Popped(data[|data| - 1]))
  {
    hide Legal, After, Top, StrictWeakOrder, Settles, Heap;
    var last := |data| - 1;
    var x := data[last];
    TailOp(less, ops, bag0, data, mark, a, last);
    var push := a.tailOps[last - mark];
    HigherIsTop(less, data, mark, x);
    PushThenPop(less, ops, a.log, bag0, multiset(data[..mark]), push, id, x);
    a' := Account(a.log + [Effect(push, Pushed)] + [Effect(id, Popped(x))], a.tailOps[..last - mark]);
    assert a.tailOps == a'.tailOps + [push];
    TailShrinks(a, a', Effect(push, Pushed), Effect(id, Popped(x)), id, Popped(x), push);
    ShorterTail(less, data, mark);
  }

  /** Removing the last element of the tail. */
  lemma ShorterTail<T>(less: (T, T) -> bool, data: seq<T>, mark: nat)
    requires mark < |data| && Heap(less, data, mark)
    ensures var last := |data| - 1;
      && Heap(less, data[..last], mark)
      && data[..last][..mark] == data[..mark] && data[..last][mark..] == data[mark..][..last - mark]
  {
    SamePrefix(less, data, data[..|data| - 1], mark);
  }

  lemma SamePrefix<T>(less: (T, T) -> bool, d: seq<T>, d': seq<T>, n: nat)
    requires Heap(less, d, n) && n <= |d'| && d'[..n] == d[..n]
    ensures Heap(less, d', n)
  {
    forall k | 1 <= k < n ensures InOrder(less, d', k) {
      assert InOrder(less, d, k);
      assert d'[..n][k] == d'[k] && d'[..n][Parent(k)] == d'[Parent(k)];
    }
  }

  /** What the extraction of the root does: the last element fills its place, joining the heap if it was behind it. */
  ghost predicate Reheaped<T>(less: (T, T) -> bool, data: seq<T>, mark: nat, data': seq<T>, mark': nat)
    requires data != [] && mark <= |data|
  {
    var last := |data| - 1;
    && |data'| == last && mark' <= last && Heap(less, data', mark')
    && if mark == 0 then mark' == 0 && data' == data[0 := data[last]][..last]
       else
         var held := multiset(data[..mark]) - multiset{data[0]};
         if mark == |data| then mark' == last && multiset(data'[..mark']) == held
         else
           mark' == mark && multiset(data'[..mark']) == held + multiset{data[last]} && data'[mark'..] == data[mark..last]
  }

  lemma PopTopKeeps<T(!new)>(less: (T, T) -> bool, ops: seq<Op<T>>, bag0: multiset<T>, data: seq<T>, mark: nat,
                             a: Account<T>, id: nat, data': seq<T>, mark': nat) returns (a': Account<T>)
    requires LinearOn(less, ops, bag0, data, mark, a) && data != [] && id < |ops| && ops[id] == Pop
    requires Reheaped(less, data, mark, data', mark')
    ensures LinearOn(less, ops, bag0, data', mark', a')
    ensures Settles(a, a', id, Popped(data[0]))
  {
    if mark == 0 {
      a' := PopFirst(less, ops, bag0, data, mark, a, id);
    } else if mark == |data| {
      RootIsTop(less, data, mark);
      Extend(less, ops, a.log, bag0, Effect(id, Popped(data[0])));
      a' := Account(a.log + [Effect(id, Popped(data[0]))], a.tailOps);
    } else {
      a' := PopAndJoin(less, ops, bag0, data, mark, a, id, data');
    }
  }

  /** With no heap, the first element of the tail is popped, and the last one takes its place. */
  lemma PopFirst<T(!new)>(less: (T, T) -> bool, ops: seq<Op<T>>, bag0: multiset<T>, data: seq<T>, mark: nat,
                          a: Account<T>, id: nat) returns (a': Account<T>)
    requires LinearOn(less, ops, bag0, data, mark, a) && data != [] && id < |ops| && ops[id] == Pop && mark == 0
    ensures LinearOn(less, ops, bag0, data[0 := data[|data| - 1]][..|data| - 1], 0, a')
    ensures Settles(a, a', id, Popped(data[0]))
  {
    hide Legal, After, Top, StrictWeakOrder, Settles, Heap;
    var last, x := |data| - 1, data[0];
    TailOp(less, ops, bag0, data, mark, a, 0);
    var push := a.tailOps[0];
    HigherIsTop(less, data, 0, x);
    assert data[..0] == [] && data[0..] == data;
    PushThenPop(less, ops, a.log, bag0, multiset{}, push, id, x);
    a' := Account(a.log + [Effect(push, Pushed)] + [Effect(id, Popped(x))], a.tailOps[0 := a.tailOps[last]][..last]);
    LastToFront(a.tailOps);
    TailShrinks(a, a', Effect(push, Pushed), Effect(id, Popped(x)), id, Popped(x), push);
    var data' := data[0 := data[last]][..last];
    assert data'[..0] == [] && data'[0..] == data';
    NoHeap(less, data');
  }

  lemma LastToFront<A>(s: seq<A>)
    requires s != []
    ensures multiset(s[0 := s[|s| - 1]][..|s| - 1]) + multiset{s[0]} == multiset(s)
  {
    var last := |s| - 1;
    assert s == s[..last] + [s[last]];
    if last > 0 { assert s[0 := s[last]][..last] == s[..last][0 := s[last]]; }
  }

  lemma NoHeap<T>(less: (T, T) -> bool, d: seq<T>)
    ensures Heap(less, d, 0)
  {}

  /** The root is popped, and the last element of the tail joins the heap. */
  lemma PopAndJoin<T(!new)>(less: (T, T) -> bool, ops: seq<Op<T>>, bag0: multiset<T>, data: seq<T>, mark: nat,
                            a: Account<T>, id: nat, data': seq<T>) returns (a': Account<T>)
    requires LinearOn(less, ops, bag0, data, mark, a) && id < |ops| && ops[id] == Pop
    requires 0 < mark < |data| && Reheaped(less, data, mark, data', mark)
    ensures LinearOn(less, ops, bag0, data', mark, a')
    ensures Settles(a, a', id, Popped(data[0]))
  {
    hide Legal, After, Top, StrictWeakOrder, Settles, Heap;
    var last := |data| - 1;
    TailOp(less, ops, bag0, data, mark, a, last);
    var push := a.tailOps[last - mark];
    RootIsTop(less, data, mark);
    PopThenPush(less, ops, a.log, bag0, multiset(data[..mark]), id, data[0], push, data[last]);
    a' := Account(a.log + [Effect(id, Popped(data[0]))] + [Effect(push, Pushed)], a.tailOps[..last - mark]);
    assert a.tailOps == a'.tailOps + [push];
    TailShrinks(a, a', Effect(id, Popped(data[0])), Effect(push, Pushed), id, Popped(data[0]), push);
    assert data[mark..last] == data[mark..][..last - mark];
  }

  lemma PopEmptyKeeps<T(!new)>(less: (T, T) -> bool, ops: seq<Op<T>>, bag0: multiset<T>, a: Account<T>, id: nat)
      returns (a': Account<T>)
    requires LinearOn(less, ops, bag0, [], 0, a) && id < |ops| && ops[id] == Pop
    ensures LinearOn(less, ops, bag0, [], 0, a') && Settles(a, a', id, FoundEmpty)
  {
    Extend(less, ops, a.log, bag0, Effect(id, FoundEmpty));
    a' := Account(a.log + [Effect(id, FoundEmpty)], a.tailOps);
  }

  lemma PushFailedKeeps<T(!new)>(less: (T, T) -> bool, ops: seq<Op<T>>, bag0: multiset<T>, data: seq<T>, mark: nat,
                                 a: Account<T>, id: nat) returns (a': Account<T>)
    requires LinearOn(less, ops, bag0, data, mark, a) && id < |ops| && ops[id].Push? && !ops[id].gotMemory
    ensures LinearOn(less, ops, bag0, data, mark, a') && Settles(a, a', id, PushFailed)
  {
    Extend(less, ops, a.log, bag0, Effect(id, PushFailed));
    a' := Account(a.log + [Effect(id, PushFailed)], a.tailOps);
  }

  /** A push behind the mark takes no effect yet. */
  lemma PushKeeps<T(!new)>(less: (T, T) -> bool, ops: seq<Op<T>>, bag0: multiset<T>, data: seq<T>, mark: nat,
                           a: Account<T>, id: nat, x: T) returns (a': Account<T>)
    requires LinearOn(less, ops, bag0, data, mark, a) && id < |ops| && ops[id] == Push(x, true)
    ensures LinearOn(less, ops, bag0, data + [x], mark, a') && Settles(a, a', id, Pushed)
  {
    a' := Account(a.log, a.tailOps + [id]);
    assert (data + [x])[..mark] == data[..mark] && (data + [x])[mark..] == data[mark..] + [x];
    SamePrefix(less, data, data + [x], mark);
  }

  /** The first push behind the mark takes effect when its element moves into the heap. */
  lemma JoinKeeps<T(!new)>(less: (T, T) -> bool, ops: seq<Op<T>>, bag0: multiset<T>, data: seq<T>, mark: nat,
                           a: Account<T>, data': seq<T>) returns (a': Account<T>)
    requires LinearOn(less, ops, bag0, data, mark, a) && mark < |data|
    requires mark + 1 <= |data'| && data'[mark + 1..] == data[mark + 1..] && Heap(less, data', mark + 1)
    requires multiset(data'[..mark + 1]) == multiset(data[..mark]) + multiset{data[mark]}
    ensures LinearOn(less, ops, bag0, data', mark + 1, a')
    ensures SettledIds(a') == SettledIds(a)
    ensures |a.tailOps| > 0 && a' == Account(a.log + [Effect(a.tailOps[0], Pushed)], a.tailOps[1..])
  {
    hide Legal, After, StrictWeakOrder, Heap;
    TailOp(less, ops, bag0, data, mark, a, mark);
    var e := Effect(a.tailOps[0], Pushed);
    Extend(less, ops, a.log, bag0, e);
    a' := Account(a.log + [e], a.tailOps[1..]);
    assert a.tailOps == [a.tailOps[0]] + a'.tailOps;
    assert data'[mark + 1..] == data[mark..][1..];
  }

  lemma TellJoined<T>(a: Account<T>, results: seq<Status<T>>)
    requires Told(a, results) && |a.tailOps| > 0
    ensures Told(Account(a.log + [Effect(a.tailOps[0], Pushed)], a.tailOps[1..]), results)
  {
    assert a.tailOps[0] in a.tailOps;
    forall t | t in a.tailOps[1..] ensures t < |results| && results[t] == Pushed {
      assert t in a.tailOps;
    }
    var e: Effect<T> := Effect(a.tailOps[0], Pushed);
    forall f | f in a.log + [e] ensures f.id < |results| && results[f.id] == f.status && f.status != Wait {
      assert f in a.log || f == e;
    }
  }

  // ----- the bookkeeping of one batch

  /**
   The first `i` operations of the batch are settled, except the pops in `popList`, in reverse order;
   each of them is settled once, and the callers of the others still wait.
   */
  ghost predicate Progress<T>(ops: seq<Op<T>>, results: seq<Status<T>>, a: Account<T>, popList: seq<nat>, i: nat)
  {
    && |results| == |ops| && i <= |ops| && Told(a, results)
    && SettledIds(a) + multiset(popList) == multiset(Upto(i))
    && PopsWait(ops, results, popList, i)
    && (forall j :: i <= j < |ops| ==> results[j] == Wait)
  }

  ghost predicate PopsWait<T>(ops: seq<Op<T>>, results: seq<Status<T>>, popList: seq<nat>, i: nat)
    requires |results| == |ops| && i <= |ops|
  {
    && (forall k :: 0 <= k < |popList| ==> popList[k] < i && ops[popList[k]] == Pop && results[popList[k]] == Wait)
    && (forall k, l :: 0 <= k < l < |popList| ==> popList[l] < popList[k])
  }

  lemma SettleNext<T>(ops: seq<Op<T>>, results: seq<Status<T>>, a: Account<T>, a': Account<T>, popList: seq<nat>,
                      i: nat, status: Status<T>)
    requires Progress(ops, results, a, popList, i) && i < |ops| && Settles(a, a', i, status) && status != Wait
    ensures Progress(ops, results[i := status], a', popList, i + 1)
  {
    hide Told;
    Tell(a, a', i, status, results);
    assert Upto(i + 1) == Upto(i) + [i];
  }

  lemma PostponeNext<T>(ops: seq<Op<T>>, results: seq<Status<T>>, a: Account<T>, popList: seq<nat>, i: nat)
    requires Progress(ops, results, a, popList, i) && i < |ops| && ops[i] == Pop
    ensures Progress(ops, results, a, [i] + popList, i + 1)
  {
    hide Told, SettledIds;
    assert Upto(i + 1) == Upto(i) + [i];
  }

  lemma SettlePostponed<T>(ops: seq<Op<T>>, results: seq<Status<T>>, a: Account<T>, a': Account<T>, popList: seq<nat>,
                           i: nat, status: Status<T>)
    requires Progress(ops, results, a, popList, i) && popList != [] && status != Wait
    requires Settles(a, a', popList[0], status)
    ensures popList[0] < |results| && Progress(ops, results[popList[0] := status], a', popList[1..], i)
  {
    hide Told, SettledIds, Upto;
    Tell(a, a', popList[0], status, results);
    TakePop(popList, SettledIds(a), SettledIds(a'), multiset(Upto(i)));
  }

  lemma TakePop(popList: seq<nat>, settled: multiset<nat>, settled': multiset<nat>, all: multiset<nat>)
    requires popList != [] && settled' == settled + multiset{popList[0]} && settled + multiset(popList) == all
    ensures settled' + multiset(popList[1..]) == all
  {
    assert popList == [popList[0]] + popList[1..];
  }

  class PriorityQueue<T(!new)> {
    const less: (T, T) -> bool
    var data: seq<T>
    var mark: nat
    var mySize: nat

    ghost var books: Account<T>

    /** What holds between batches. */
    ghost predicate Valid()
      reads this
    {
      StrictWeakOrder(less) && mark == |data| == mySize && Heap(less, data, mark)
    }

    constructor (less: (T, T) -> bool)
      requires StrictWeakOrder(less)
      ensures Valid() && data == [] && this.less == less
    {
      this.less, data, mark, mySize := less, [], 0, 0;
    }

    ghost function Bag(): multiset<T>
      reads this
    {
      multiset(data)
    }

    /** What holds within a batch that has begun with contents `bag0`. */
    ghost predicate Linear(ops: seq<Op<T>>, bag0: multiset<T>)
      reads this
    {
      LinearOn(less, ops, bag0, data, mark, books) && mySize == |data|
    }

    // ----- the operations of a batch

    /** The element pushed last ranks higher than the root. */
    predicate LastIsHigher()
      reads this
      requires data != []
    {
      mark < |data| && less(data[0], data[|data| - 1])
    }

    method PopBack(ghost ops: seq<Op<T>>, ghost id: nat, ghost bag0: multiset<T>) returns (x: T)
      requires Linear(ops, bag0) && data != [] && LastIsHigher() && id < |ops| && ops[id] == Pop
      modifies this
      ensures Linear(ops, bag0) && Settles(old(books), books, id, Popped(x))
    {
      hide LinearOn, Settles;
      books := PopBackKeeps(less, ops, bag0, data, mark, books, id);
      x := data[|data| - 1];
      mySize := mySize - 1;
      data := data[..|data| - 1];
    }

    method PopTop(ghost ops: seq<Op<T>>, ghost id: nat, ghost bag0: multiset<T>) returns (x: T)
      requires Linear(ops, bag0) && data != [] && id < |ops| && ops[id] == Pop
      modifies this
      ensures Linear(ops, bag0) && Settles(old(books), books, id, Popped(x))
    {
      hide Chosen, Settles, Reheaped;
      x := data[0];
      mySize := mySize - 1;
      Reheap();
      books := PopTopKeeps(less, ops, bag0, old(data), old(mark), books, id, data, mark);
    }

    /** The first pass settles pushes, and pops that the last element can serve; it postpones the other pops. */
    method FirstPass(ops: seq<Op<T>>, ghost bag0: multiset<T>) returns (results: seq<Status<T>>, popList: seq<nat>)
      requires Linear(ops, bag0) && books == Account([], [])
      modifies this
      ensures Linear(ops, bag0) && Progress(ops, results, books, popList, |ops|)
    {
      hide Linear, Progress, Settles;
      results, popList := seq(|ops|, _ => Wait), [];
      Begin(ops, results, books);
      var i := 0;
      while i < |ops|
        invariant i <= |ops| == |results|
        invariant Linear(ops, bag0) && Progress(ops, results, books, popList, i)
      {
        ghost var a := books;
        var status := HandleFirst(ops, i, bag0);
        if status == Wait {
          PostponeNext(ops, results, books, popList, i);
          popList := [i] + popList;
        } else {
          SettleNext(ops, results, a, books, popList, i, status);
          results := results[i := status];
        }
        i := i + 1;
      }
    }

    lemma Begin(ops: seq<Op<T>>, results: seq<Status<T>>, a: Account<T>)
      requires results == seq(|ops|, _ => Wait) && a == Account([], [])
      ensures Progress(ops, results, a, [], 0)
    {
      assert Ids(a.log) == [] && Upto(0) == [];
    }

    /** Operation `i` in the first pass. */
    method HandleFirst(ops: seq<Op<T>>, i: nat, ghost bag0: multiset<T>) returns (status: Status<T>)
      requires Linear(ops, bag0) && i < |ops|
      modifies this
      ensures Linear(ops, bag0)
      ensures if status == Wait then books == old(books) && ops[i] == Pop else Settles(old(books), books, i, status)
    {
      hide LinearOn, Settles;
      match ops[i] {
        case Pop =>
          if data != [] && LastIsHigher() {
            var x := PopBack(ops, i, bag0);
            status := Popped(x);
          } else {
            status := Wait;
          }
        case Push(x, gotMemory) =>
          if gotMemory {
            books := PushKeeps(less, ops, bag0, data, mark, books, i, x);
            data := data + [x];
            mySize := mySize + 1;
            status := Pushed;
          } else {
            books := PushFailedKeeps(less, ops, bag0, data, mark, books, i);
            status := PushFailed;
          }
      }
    }

    /** The second pass settles the postponed pops. */
    method SecondPass(ops: seq<Op<T>>, results0: seq<Status<T>>, popList0: seq<nat>, ghost bag0: multiset<T>)
      returns (results: seq<Status<T>>)
      requires Linear(ops, bag0) && Progress(ops, results0, books, popList0, |ops|)
      modifies this
      ensures Linear(ops, bag0) && Progress(ops, results, books, [], |ops|)
    {
      hide Linear, Progress, Settles;
      var popList := popList0;
      results := results0;
      while popList != []
        invariant Linear(ops, bag0) && Progress(ops, results, books, popList, |ops|)
        decreases |popList|
      {
        ghost var a := books;
        NextPop(ops, results, books, popList);
        var status := HandlePop(ops, popList[0], bag0);
        SettlePostponed(ops, results, a, books, popList, |ops|, status);
        results := results[popList[0] := status];
        popList := popList[1..];
      }
    }

    lemma NextPop(ops: seq<Op<T>>, results: seq<Status<T>>, a: Account<T>, popList: seq<nat>)
      requires Progress(ops, results, a, popList, |ops|) && popList != []
      ensures popList[0] < |ops| && ops[popList[0]] == Pop
    {}

    method HandlePop(ghost ops: seq<Op<T>>, ghost id: nat, ghost bag0: multiset<T>) returns (status: Status<T>)
      requires Linear(ops, bag0) && id < |ops| && ops[id] == Pop
      modifies this
      ensures Linear(ops, bag0) && status != Wait && Settles(old(books), books, id, status)
    {
      hide Chosen, Settles, Heap;
      if data == [] {
        books := PopEmptyKeeps(less, ops, bag0, books, id);
        status := FoundEmpty;
      } else if LastIsHigher() {
        var x := PopBack(ops, id, bag0);
        status := Popped(x);
      } else {
        var x := PopTop(ops, id, bag0);
        status := Popped(x);
      }
    }

    /** What is left behind the mark moves into the heap, and those pushes take effect. */
    method Heapify(ghost ops: seq<Op<T>>, ghost results: seq<Status<T>>, ghost bag0: multiset<T>)
      requires Linear(ops, bag0) && Progress(ops, results, books, [], |ops|)
      modifies `data, `mark, `books
      ensures Linear(ops, bag0) && Progress(ops, results, books, [], |ops|) && mark == |data|
    {
      hide Chosen, Progress, Heap, StrictWeakOrder;
      if mark == 0 && |data| > 0 {
        OneIsHeap();
        Join(ops, results, bag0, data);
        mark := 1;
      }
      while mark < |data|
        invariant Linear(ops, bag0) && Progress(ops, results, books, [], |ops|)
        invariant data == [] || mark > 0
        decreases |data| - mark
      {
        ghost var was := data;
        PushUp();
        Join(ops, results, bag0, was);
        mark := mark + 1;
      }
    }

    lemma OneIsHeap()
      requires mark == 0 && data != []
      ensures Heap(less, data, 1) && multiset(data[..1]) == multiset(data[..0]) + multiset{data[0]}
    {
      assert data[..1] == [data[0]];
    }

    /** The push of the element at the mark takes effect. */
    ghost method Join(ops: seq<Op<T>>, results: seq<Status<T>>, bag0: multiset<T>, was: seq<T>)
      requires LinearOn(less, ops, bag0, was, mark, books) && Progress(ops, results, books, [], |ops|)
      requires mark < |was| && mark + 1 <= |data| && data[mark + 1..] == was[mark + 1..] && Heap(less, data, mark + 1)
      requires multiset(data[..mark + 1]) == multiset(was[..mark]) + multiset{was[mark]}
      modifies `books
      ensures LinearOn(less, ops, bag0, data, mark + 1, books) && Progress(ops, results, books, [], |ops|)
    {
      hide Chosen, Heap, StrictWeakOrder, Told;
      var a := books;
      books := JoinKeeps(less, ops, bag0, was, mark, books, data);
      TellJoined(a, results);
    }

    // ----- the handler

    /**
     Handles a batch.  Its effects, in some order in which every operation of the batch appears once,
     are what a sequential priority queue would do, and each caller is told the status its operation
     had in that order: a pop returns an element that nothing present outranks, and fails only when
     nothing is there.
     */
    method HandleOperations(ops: seq<Op<T>>) returns (results: seq<Status<T>>, ghost log: seq<Effect<T>>)
      requires Valid()
      modifies this
      ensures Valid() && |results| == |ops|
      ensures Legal(less, ops, log, old(Bag())) && After(ops, log, old(Bag())) == Bag()
      ensures multiset(Ids(log)) == multiset(Upto(|ops|))
      ensures forall e :: e in log ==> e.id < |ops| && results[e.id] == e.status
    {
      hide Legal, StrictWeakOrder, Heap;
      ghost var bag0 := Bag();
      books := Account([], []);
      BatchBegins(ops, books);
      var popList;
      results, popList := FirstPass(ops, bag0);
      results := SecondPass(ops, results, popList, bag0);
      if mark < |data| {
        Heapify(ops, results, bag0);
      }
      log := books.log;
      assert data[..mark] == data;
      assert books.tailOps == [];
    }

    lemma BatchBegins(ops: seq<Op<T>>, a: Account<T>)
      requires StrictWeakOrder(less) && mark == |data| && Heap(less, data, mark) && a == Account([], [])
      ensures LinearOn(less, ops, multiset(data), data, mark, a)
    {
      assert data[..mark] == data;
    }

    // ----- heapify and reheap

    /** The element at the mark moves up to its place in the heap. */
    method PushUp()
      requires StrictWeakOrder(less) && 0 < mark < |data| && Heap(less, data, mark)
      modifies `data
      ensures mark + 1 <= |data| && data[mark + 1..] == old(data)[mark + 1..]
      ensures Heap(less, data, mark + 1)
      ensures multiset(data[..mark + 1]) == multiset(old(data)[..mark]) + multiset{old(data)[mark]}
    {
      hide StrictWeakOrder, Heap, Sifting, Parent;
      var curPos, toPlace := mark, data[mark];
      ghost var n, d := mark + 1, data;       // d: data with toPlace put at curPos
      ghost var held, rest := multiset(data[..mark]) + multiset{toPlace}, data[mark + 1..];
      StartUp(less, data, mark, held, rest);
      while true
        invariant 0 < curPos < n <= |data| && d == data[curPos := toPlace]
        invariant Sifting(less, d, n, curPos, true, held, rest)
        decreases curPos
      {
        ParentIsAbove(curPos);
        var parent := Parent(curPos);
        if !less(data[parent], toPlace) {
          break;
        }
        SiftUp(less, d, n, curPos, held, rest);
        HoleMoves(data, d, curPos, parent, toPlace);
        d := d[curPos := d[parent]][parent := d[curPos]];
        data := data[curPos := data[parent]];
        curPos := parent;
        if curPos == 0 {
          break;
        }
      }
      data := data[curPos := toPlace];
      SiftedUp(less, data, n, curPos, held, rest);
    }

    /**
     Fills the place of the root, which has been extracted, with the last element: that is the last of
     the heap when nothing lies behind the heap, and otherwise joins the heap.
     */
    method Reheap()
      requires StrictWeakOrder(less) && data != [] && mark <= |data| && Heap(less, data, mark)
      modifies `data, `mark
      ensures Reheaped(less, old(data), old(mark), data, mark) && |data| == old(|data|) - 1
    {
      hide StrictWeakOrder, Heap, Reheaped;
      ghost var was, last := data, |data| - 1;
      var curPos := 0;
      if mark > 0 {
        curPos := HoleDown();
      }
      ghost var d := data[curPos := data[last]];
      ReheapEnds(less, was, mark, d);
      if curPos != |data| - 1 {
        data := data[curPos := data[|data| - 1]];
      }
      assert data == d;
      data := data[..|data| - 1];
      if mark > |data| {
        mark := |data|;
      }
    }

    /** The child of the hole with the higher priority. */
    method PickChild(child: nat, ghost curPos: nat) returns (target: nat)
      requires child == 2 * curPos + 1 && child < mark <= |data|
      ensures HigherChild(less, data, mark, curPos, target) && target < mark
    {
      target := child;
      if child + 1 < mark && less(data[child], data[child + 1]) {
        target := target + 1;
      }
    }

    /** The hole at the root moves down to where the last element can be put. */
    method HoleDown() returns (curPos: nat)
      requires StrictWeakOrder(less) && data != [] && 0 < mark <= |data| && Heap(less, data, mark)
      modifies `data
      ensures |data| == old(|data|) && curPos < |data| && data[|data| - 1] == old(data[|data| - 1])
      ensures var x, d := data[|data| - 1], data[curPos := data[|data| - 1]];
        && Heap(less, d, mark) && d[mark..] == old(data)[mark..]
        && multiset(d[..mark]) == multiset(old(data)[..mark]) - multiset{old(data[0])} + multiset{x}
    {
      hide StrictWeakOrder, Heap, Sinking, Settled, HigherChild;
      ghost var x, last := data[|data| - 1], |data| - 1;
      ghost var held, rest := multiset(data[..mark]) - multiset{data[0]} + multiset{x}, data[mark..];
      StartDown(less, data, mark, held, rest);
      curPos := 0;
      var child := 1;
      while child < mark
        invariant curPos < mark <= |data| == last + 1 && child == 2 * curPos + 1 && data[last] == x
        invariant Sinking(less, data, x, mark, curPos, held, rest)
      {
        var target := PickChild(child, curPos);
        HoleSinks(less, data, x, mark, curPos, target, held, rest);
        if less(data[target], data[|data| - 1]) {
          assert Settled(less, data, x, mark, curPos);
          break;
        }
        data := data[curPos := data[target]];
        curPos := target;
        child := 2 * curPos + 1;
      }
      HasSunk(less, data, x, mark, curPos, held, rest);
    }
  }

  /** The hole is at `c`, and were `x` put there, the elements would be in order but for it. */
  ghost predicate Sinking<T>(less: (T, T) -> bool, data: seq<T>, x: T, n: nat, c: nat, held: multiset<T>, rest: seq<T>)
  {
    c < |data| && Sifting(less, data[c := x], n, c, false, held, rest)
  }

  ghost predicate Settled<T>(less: (T, T) -> bool, data: seq<T>, x: T, n: nat, c: nat)
  {
    c < |data| && AboveChildren(less, data[c := x], n, c)
  }

  /** One round of the way down, where the last element, `x`, would be put into the hole at `c`. */
  lemma HoleSinks<T(!new)>(less: (T, T) -> bool, data: seq<T>, x: T, n: nat, c: nat, t: nat,
                           held: multiset<T>, rest: seq<T>)
    requires StrictWeakOrder(less) && c < n <= |data| && HigherChild(less, data, n, c, t)
    requires x == data[|data| - 1] && Sinking(less, data, x, n, c, held, rest)
    ensures c < t < n
    ensures if less(data[t], x) then Settled(less, data, x, n, c)
      else Sinking(less, data[c := data[t]], x, n, t, held, rest)
    ensures data[c := data[t]][|data| - 1] == x
  {
    var d := data[c := x];
    SiftDown(less, d, n, c, t, held, rest);
    HoleMoves(data, d, c, t, x);
  }

  lemma HasSunk<T>(less: (T, T) -> bool, data: seq<T>, x: T, n: nat, c: nat, held: multiset<T>, rest: seq<T>)
    requires n <= |data| && Sinking(less, data, x, n, c, held, rest)
    requires Settled(less, data, x, n, c) || 2 * c + 1 >= n
    ensures c < |data| && Heap(less, data[c := x], n)
    ensures multiset(data[c := x][..n]) == held && data[c := x][n..] == rest
  {
    SiftedDown(less, data[c := x], n, c, held, rest);
  }

  lemma StartDown<T>(less: (T, T) -> bool, d: seq<T>, mark: nat, held: multiset<T>, rest: seq<T>)
    requires 0 < mark <= |d| && Heap(less, d, mark)
    requires held == multiset(d[..mark]) - multiset{d[0]} + multiset{d[|d| - 1]} && rest == d[mark..]
    ensures Sinking(less, d, d[|d| - 1], mark, 0, held, rest)
  {
    var d' := d[0 := d[|d| - 1]];
    assert d'[..mark] == d[..mark][0 := d[|d| - 1]];
    forall k | 1 <= k < mark && Parent(k) != 0 ensures InOrder(less, d', k) {
      assert InOrder(less, d, k);
    }
  }

  /** The last element, which has a new place within the heap, is removed from its old one. */
  lemma ReheapEnds<T>(less: (T, T) -> bool, was: seq<T>, mark: nat, d: seq<T>)
    requires was != [] && |d| == |was| && mark <= |was| && d[|d| - 1] == was[|was| - 1]
    requires if mark == 0 then d == was[0 := was[|was| - 1]]
      else
        && Heap(less, d, mark) && d[mark..] == was[mark..]
        && multiset(d[..mark]) == multiset(was[..mark]) - multiset{was[0]} + multiset{was[|was| - 1]}
    ensures Reheaped(less, was, mark, d[..|d| - 1], if mark > |d| - 1 then |d| - 1 else mark)
  {
    var last := |d| - 1;
    if mark == |d| {
      assert d[..mark] == d[..last] + [d[last]] && d[..last][..last] == d[..last];
      Cancel(multiset(d[..last]), multiset(was[..mark]) - multiset{was[0]}, d[last]);
      SamePrefix(less, d, d[..last], last);
    } else if mark > 0 {
      assert d[..last][..mark] == d[..mark];
      assert d[..last][mark..] == d[mark..][..last - mark] == was[mark..][..last - mark] == was[mark..last];
      SamePrefix(less, d, d[..last], mark);
    }
  }

  lemma Cancel<T>(a: multiset<T>, b: multiset<T>, x: T)
    requires a + multiset{x} == b + multiset{x}
    ensures a == b
  {
    assert a == (a + multiset{x}) - multiset{x};
  }

  /** Moving the hole in `data` from `c` to `p` exchanges two elements of `d`, which has `x` in the hole. */
  lemma HoleMoves<T>(data: seq<T>, d: seq<T>, c: nat, p: nat, x: T)
    requires c < |data| && p < |data| && c != p && d == data[c := x]
    ensures d[c] == x && d[p] == data[p]
    ensures d[c := d[p]][p := d[c]] == data[c := data[p]][p := x]
    ensures c < |data| - 1 ==> data[c := data[p]][|data| - 1] == data[|data| - 1]
  {}

  lemma StartUp<T>(less: (T, T) -> bool, d: seq<T>, mark: nat, held: multiset<T>, rest: seq<T>)
    requires 0 < mark < |d| && Heap(less, d, mark)
    requires held == multiset(d[..mark]) + multiset{d[mark]} && rest == d[mark + 1..]
    ensures Sifting(less, d, mark + 1, mark, true, held, rest)
  {
    assert d[..mark + 1] == d[..mark] + [d[mark]];
  }
}
