/**
 The locked deque of the work-stealing pool.  It holds a worker's tasks, of which others may steal the
 last, and the worker ids in the order in which they are to be given work.
 */
module StealingQueue {
  import opened Wrappers

  /** The item, if it is there, leaves its place; it comes first. */
  function RotatedToFront<T(==)>(s: seq<T>, item: T): seq<T>
  {
    if item in s then
      var k := FirstIndex(s, item);
      [item] + s[..k] + s[k + 1..]
    else [item] + s
  }

  function FirstIndex<T(==)>(s: seq<T>, item: T): (k: nat)
    requires item in s
    ensures k < |s| && s[k] == item && item !in s[..k]
  {
    if s[0] == item then 0
    else
      assert s == [s[0]] + s[1..];
      var k := FirstIndex(s[1..], item) + 1;
      assert s[..k] == [s[0]] + s[1..][..k - 1];
      k
  }

  /** The first item comes last. */
  function RotatedToBack<T>(s: seq<T>): seq<T>
    requires s != []
  {
    s[1..] + [s[0]]
  }

  /** Rotating neither loses nor doubles an item; only an unknown one is added. */
  lemma RotatingPermutes<T>(s: seq<T>, item: T)
    ensures multiset(RotatedToFront(s, item)) == if item in s then multiset(s) else multiset(s) + multiset{item}
    ensures RotatedToFront(s, item)[0] == item
    ensures s != [] ==> multiset(RotatedToBack(s)) == multiset(s)
  {
    hide FirstIndex;
    if item in s { ToFrontPermutes(s, item, FirstIndex(s, item)); }
    if s != [] { assert s == [s[0]] + s[1..]; }
  }

  lemma ToFrontPermutes<T>(s: seq<T>, item: T, k: nat)
    requires k < |s| && s[k] == item
    ensures multiset([item] + s[..k] + s[k + 1..]) == multiset(s)
  {
    assert s == s[..k] + [item] + s[k + 1..];
  }

  class ThreadSafeQueue<T(==)> {
    var data: seq<T>

    constructor ()
      ensures data == []
    {
      data := [];
    }

    method PushBack(value: T)
      modifies this
      ensures data == old(data) + [value]
    {
      data := data + [value];
    }

    method Clear() returns (size: nat)
      modifies this
      ensures size == old(|data|) && data == []
    {
      size := |data|;
      data := [];
    }

    method PopFront() returns (front: Option<T>)
      modifies this
      ensures if old(data) == [] then front == None && data == []
        else front == Some(old(data[0])) && [front.value] + data == old(data)
    {
      if data == [] {
        return None;
      }
      front := Some(data[0]);
      data := data[1..];
    }

    method Steal() returns (back: Option<T>)
      modifies this
      ensures if old(data) == [] then back == None && data == []
        else back == Some(old(data[|data| - 1])) && data + [back.value] == old(data)
    {
      if data == [] {
        return None;
      }
      back := Some(data[|data| - 1]);
      data := data[..|data| - 1];
    }

    method RotateToFront(item: T)
      modifies this
      ensures data == RotatedToFront(old(data), item)
      ensures data != [] && data[0] == item && (item !in old(data) ==> data[1..] == old(data))
      ensures forall k :: 0 <= k < |old(data)| && old(data)[k] == item && item !in old(data)[..k] ==>
                data[1..] == old(data)[..k] + old(data)[k + 1..]
    {
      var iter := 0;
      while iter < |data| && data[iter] != item
        invariant iter <= |data| && item !in data[..iter]
      {
        iter := iter + 1;
      }
      if iter < |data| {
        FirstIs(data, item, iter);
        data := data[..iter] + data[iter + 1..];
      } else {
        assert data[..iter] == data;
      }
      data := [item] + data;
      assert data == RotatedToFront(old(data), item);
      forall k | 0 <= k < |old(data)| && old(data)[k] == item && item !in old(data)[..k]
        ensures data[1..] == old(data)[..k] + old(data)[k + 1..]
      {
        FirstIs(old(data), item, k);
      }
    }

    lemma FirstIs(s: seq<T>, item: T, k: nat)
      requires k < |s| && s[k] == item && item !in s[..k]
      ensures item in s && FirstIndex(s, item) == k
    {
      var j := FirstIndex(s, item);
      forall m | 0 <= m < k ensures s[m] != item { assert s[..k][m] == s[m]; }
      forall m | 0 <= m < j ensures s[m] != item { assert s[..j][m] == s[m]; }
    }

    method CopyFrontAndRotateToBack() returns (front: Option<T>)
      modifies this
      ensures if old(data) == [] then front == None && data == []
        else front == Some(old(data[0])) && data == old(data)[1..] + [front.value] == RotatedToBack(old(data))
    {
      if data == [] {
        return None;
      }
      front := Some(data[0]);
      data := data[1..];
      data := data + [front.value];
    }
  }
}
